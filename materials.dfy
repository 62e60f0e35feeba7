/** Material (src/Renderer/Material.h, src/Renderer/Material.cpp): PBR
    parameters clamped by their setters, and one texture per TextureType channel,
    defaulting to a white texture shared by every material. */
module Materials {
  import opened MathTypes
  import opened Textures
  import Lights
  import TextureManagers

  const UInt32Limit: int := 0x1_0000_0000
  type uint32 = x: int | 0 <= x < UInt32Limit

  /** TextureType without its Count sentinel. */
  datatype TextureType = Albedo | Normal | Metallic | Roughness | AmbientOcclusion | Emissive | Height

  /** TextureType::Count. */
  const TextureTypeCount: nat := 7

  /** The enum's integer value. */
  function TypeIndex(t: TextureType): (i: nat)
    ensures i < TextureTypeCount
  {
    match t
    case Albedo => 0
    case Normal => 1
    case Metallic => 2
    case Roughness => 3
    case AmbientOcclusion => 4
    case Emissive => 5
    case Height => 6
  }

  /** The cast `(TextureType)i` for 0 <= i < Count. */
  function TypeFromIndex(i: nat): (t: TextureType)
    requires i < TextureTypeCount
    ensures TypeIndex(t) == i
  {
    [Albedo, Normal, Metallic, Roughness, AmbientOcclusion, Emissive, Height][i]
  }

  /** The channels are numbered 0..6 one-to-one, Albedo first and Height last. */
  lemma TypeIndexBijective(t: TextureType, u: TextureType)
    ensures TypeFromIndex(TypeIndex(t)) == t
    ensures TypeIndex(t) == TypeIndex(u) ==> t == u
    ensures TypeIndex(Albedo) == 0 && TypeIndex(Height) == TextureTypeCount - 1
  {
  }

  /** glm::clamp(x, 0.0f, 1.0f). */
  function Clamp01(x: real): (r: real)
    ensures 0.0 <= r <= 1.0
    ensures 0.0 <= x <= 1.0 ==> r == x
  {
    Lights.Clamp(x, 0.0, 1.0)
  }

  /** What the renderer reads from a material: `Get()`'s texture map listed in
      channel order, and the PBR getters. */
  datatype MaterialView = MaterialView(
    textures: seq<TexRef>, albedo: Vec4, emissive: Vec3,
    roughness: real, metallic: real, ao: real)

  /** The file-static s_DefaultWhiteTexture of Material.cpp. */
  class MaterialResources {
    var defaultWhiteTexture: TexRef

    constructor ()
      ensures defaultWhiteTexture == NullTex
    {
      defaultWhiteTexture := NullTex;
    }

    /** InitDefaultMaterialResources: creates the texture only when none exists.
        `created` is the 1x1 white texture Texture2D::Create(1, 1) would return. */
    method InitDefaultMaterialResources(created: TexRef)
      requires created.Tex?
      modifies this
      ensures defaultWhiteTexture.Tex?
      ensures old(defaultWhiteTexture).Tex? ==> defaultWhiteTexture == old(defaultWhiteTexture)
      ensures old(defaultWhiteTexture).NullTex? ==> defaultWhiteTexture == created
    {
      if defaultWhiteTexture.NullTex? {
        defaultWhiteTexture := created;
      }
    }
  }

  class Material {
    var id: uint32
    var name: string
    var albedo: Vec4
    var roughness: real
    var metallic: real
    var ao: real
    var emissive: Vec3
    var textures: map<TextureType, TexRef>
    var defaultWhiteTexture: TexRef

    /** Every channel holds a texture and the clamped parameters are in [0, 1]. */
    ghost predicate Valid()
      reads this
    {
      && (forall t: TextureType :: t in textures && textures[t].Tex?)
      && defaultWhiteTexture.Tex?
      && 0.0 <= roughness <= 1.0 && 0.0 <= metallic <= 1.0 && 0.0 <= ao <= 1.0
    }

    /** Material(): makes sure the shared default exists, then points all seven
        channels at it. `created` is the texture InitDefaultMaterialResources
        would create if none existed yet. */
    constructor (resources: MaterialResources, created: TexRef)
      requires created.Tex?
      modifies resources
      ensures Valid()
      ensures id == 0 && name == "" && albedo == Splat(4, 1.0) && roughness == 0.5
      ensures metallic == 0.0 && ao == 1.0 && emissive == Splat(3, 0.0)
      ensures resources.defaultWhiteTexture.Tex? && defaultWhiteTexture == resources.defaultWhiteTexture
      ensures old(resources.defaultWhiteTexture).Tex? ==> resources.defaultWhiteTexture == old(resources.defaultWhiteTexture)
      ensures forall t: TextureType :: textures[t] == defaultWhiteTexture
    {
      resources.InitDefaultMaterialResources(created);
      id := 0;
      name := "";
      albedo := Splat(4, 1.0);
      roughness := 0.5;
      metallic := 0.0;
      ao := 1.0;
      emissive := Splat(3, 0.0);
      var white := resources.defaultWhiteTexture;
      defaultWhiteTexture := white;
      var filled: map<TextureType, TexRef> := map[];
      for i := 0 to TextureTypeCount
        invariant forall t: TextureType :: t in filled <==> TypeIndex(t) < i
        invariant forall t: TextureType :: t in filled ==> filled[t] == white
      {
        filled := filled[TypeFromIndex(i) := white];
      }
      textures := filled;
    }

    method SetID(newId: uint32)
      modifies this`id
      ensures id == newId
    {
      id := newId;
    }

    function GetID(): (r: uint32)
      reads this
    {
      id
    }

    method SetName(newName: string)
      modifies this`name
      ensures name == newName
    {
      name := newName;
    }

    method SetAlbedo(color: Vec4)
      modifies this`albedo
      ensures albedo == color
    {
      albedo := color;
    }

    method SetRoughness(value: real)
      modifies this`roughness
      ensures roughness == Clamp01(value)
    {
      roughness := Clamp01(value);
    }

    method SetMetallic(value: real)
      modifies this`metallic
      ensures metallic == Clamp01(value)
    {
      metallic := Clamp01(value);
    }

    method SetAO(value: real)
      modifies this`ao
      ensures ao == Clamp01(value)
    {
      ao := Clamp01(value);
    }

    method SetEmissive(color: Vec3)
      modifies this`emissive
      ensures emissive == color
    {
      emissive := color;
    }

    /** SetTexture(type, path): the manager's texture for `path`, or the default
        white texture when the manager's answer is null; other channels are
        untouched. `createFails` is passed on to the manager's lookup. */
    method SetTexture(textureType: TextureType, texturePath: string, manager: TextureManagers.TextureManager, createFails: bool)
      requires Valid() && manager.Valid()
      modifies this`textures, manager
      ensures Valid() && manager.Valid()
      ensures texturePath in manager.loadedTextures
      ensures manager.loadedTextures[texturePath].Tex? ==>
        textures == old(textures)[textureType := manager.loadedTextures[texturePath]]
      ensures manager.loadedTextures[texturePath].NullTex? ==>
        textures == old(textures)[textureType := defaultWhiteTexture]
    {
      var loaded := manager.GetTexture(texturePath, createFails);
      if loaded.Tex? {
        textures := textures[textureType := loaded];
      } else {
        textures := textures[textureType := defaultWhiteTexture];
      }
    }

    method RemoveTexture(textureType: TextureType)
      requires Valid()
      modifies this`textures
      ensures Valid()
      ensures textures == old(textures)[textureType := defaultWhiteTexture]
    {
      textures := textures[textureType := defaultWhiteTexture];
    }

    /** GetTexture: the stored texture, or the default for a channel not in the
        map; on a valid material it is never null. */
    function GetTexture(textureType: TextureType): (r: TexRef)
      reads this
      ensures textureType in textures ==> r == textures[textureType]
      ensures textureType !in textures ==> r == defaultWhiteTexture
      ensures Valid() ==> r.Tex?
    {
      if textureType in textures then textures[textureType] else defaultWhiteTexture
    }

    /** The renderer's view of this material. */
    function View(): (v: MaterialView)
      requires Valid()
      reads this
      ensures |v.textures| == TextureTypeCount
      ensures forall c :: 0 <= c < TextureTypeCount ==> v.textures[c] == textures[TypeFromIndex(c)]
      ensures v.albedo == albedo && v.emissive == emissive
      ensures v.roughness == roughness && v.metallic == metallic && v.ao == ao
    {
      MaterialView(
        [textures[Albedo], textures[Normal], textures[Metallic], textures[Roughness],
         textures[AmbientOcclusion], textures[Emissive], textures[Height]],
        albedo, emissive, roughness, metallic, ao)
    }
  }
}

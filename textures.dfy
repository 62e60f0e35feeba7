/** Texture2D handles (src/Renderer/Texture.h).

    A `Ref<Texture2D>` is either null or names one GPU texture. Texture2D's
    operator== compares renderer IDs, and every live texture owns its own GL
    texture name, so a handle is modelled by that renderer ID, and Texture2D's
    `==` is the datatype's own `==`. */
module Textures {
  datatype TexRef = NullTex | Tex(rendererId: nat)
}

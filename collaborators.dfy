/** The services the material exporter calls but does not implement, as uninterpreted
    functions: helpers.ensure_power_of_two, the OpenGL texture helper (alpha scan and level
    extraction), the resource manager's textures-page choice, the animation converter's
    controller builders and the target engine version. */
module Collaborators {
  import opened Wrappers
  import opened Blender
  import opened Plasma

  /** n is 1, 2, 4, 8, ... */
  predicate IsPow2(n: nat)
    decreases n
  {
    n == 1 || (n >= 2 && n % 2 == 0 && IsPow2(n / 2))
  }

  datatype Services = Services(
    /** helpers.ensure_power_of_two */
    pot: nat -> nat,
    /** GLTexture(image).has_alpha: whether the pixels carry real alpha */
    alphaScan: Image -> bool,
    /** GLTexture.get_level_data(level, calc_alpha, bgra) on the image scaled to width x height */
    levelData: (Image, nat, nat, nat, bool, bool) -> seq<bv8>,
    /** get_textures_page: the page whose bitmaps a layer exported into `page` uses */
    texturesPage: nat -> nat,
    /** make_scalar_leaf_controller */
    scalarController: FCurve -> Option<Ctrl>,
    /** make_matrix44_controller(pos_fcurves, scale_fcurves, offset, scale) */
    matrixController: (seq<FCurve>, seq<FCurve>, Vec3, Vec3) -> Option<Ctrl>,
    /** getVer() >= pvMoul */
    moulOrLater: bool)

  /** What the exporter relies on: ensure_power_of_two always yields a power of two. */
  ghost predicate ValidServices(svc: Services) {
    forall n :: IsPow2(svc.pot(n))
  }
}

/** The parts of Blender's scene data that the material exporter reads, as plain records.
    Object identity in Blender (the same datablock) is value equality here. */
module Blender {
  import opened Wrappers

  /** Blender datablock names are never empty. */
  type Name = s: string | |s| > 0 witness "_"

  datatype Vec3 = Vec3(x: real, y: real, z: real)

  datatype Color = Color(r: real, g: real, b: real)

  /** bpy.types.Image: its name, channel count, "use alpha" toggle and pixel size. */
  datatype Image = Image(name: Name, channels: nat, useAlpha: bool, width: nat, height: nat)

  /** An animation curve, identified by the RNA path it animates. */
  datatype FCurve = FCurve(dataPath: string, id: nat)

  /** An action: its curves and its frame range. */
  datatype Action = Action(fcurves: seq<FCurve>, frameStart: int, frameEnd: int)

  datatype TextureType = EnvironmentMapType | ImageType | NoneType | BlendType | OtherType(typeName: string)

  datatype Extension = Clip | Repeat | Extend | Checker

  datatype EnvSource = Static | Animated | ImageFile

  datatype EnvMapping = Plane | Cube

  /** A Blender object: its name, the Plasma page it is exported into, its UV map names
      (bo.data.uv_layers) and its position. */
  datatype BObject = BObject(name: string, page: nat, uvLayers: seq<string>, location: Vec3)

  /** texture.environment_map */
  datatype EnvMapSettings = EnvMapSettings(source: EnvSource, mapping: EnvMapping,
                                           viewpoint: Option<BObject>, resolution: nat,
                                           clipStart: real, clipEnd: real)

  /** texture.plasma_layer: opacity is a percentage, 100 meaning opaque. */
  datatype LayerProps = LayerProps(opacity: int, alphaHalo: bool, animAutoStart: bool,
                                   animLoop: bool, envmapColor: Color, visRegions: seq<string>)

  datatype Texture = Texture(
    name: string,
    kind: TextureType,
    image: Option<Image>,
    useCalculateAlpha: bool,
    useMipmap: bool,
    useAlpha: bool,
    invertAlpha: bool,
    extension: Extension,
    plasmaLayer: LayerProps,
    environmentMap: EnvMapSettings,
    action: Option<Action>)

  datatype SlotBlend = Mix | Add | Multiply | Subtract | Screen

  datatype TextureSlot = TextureSlot(
    name: string,
    use: bool,
    texture: Option<Texture>,
    uvLayer: string,
    offset: Vec3,
    scale: Vec3,
    useStencil: bool,
    blendType: SlotBlend)

  /** A Blender material; an empty texture slot is None. */
  datatype Material = Material(
    name: string,
    textureSlots: seq<Option<TextureSlot>>,
    useMist: bool,
    diffuseColor: Color,
    specularColor: Color,
    action: Option<Action>)

  /** The scene context: the world's ambient colour, and for every object in bpy.data.objects
      whether its visibility-region modifier is enabled. */
  datatype Scene = Scene(ambientColor: Color, objects: map<string, bool>)
}

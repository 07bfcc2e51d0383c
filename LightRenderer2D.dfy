// The light overlay: a list of lights and a list of obstacles edited in place, the light
// constructors of Light.h, and the per-frame uniform upload, which sends at most 16 of the
// frame's lights and at most 32 of the stored obstacles. The lighting arithmetic
// (CalculateLightContribution and the queries built on it) is outside the model.

module Lighting {
  import opened Base
  import opened QuadBatches
  import opened Vision

  type Vec3 = (real, real, real)

  const MaxLightUniforms: nat := 16

  datatype LightType = PointLight | DirectionalLight | SpotLight

  /** static_cast<int> of the enum, as the shader receives it. */
  function LightTypeCode(t: LightType): (code: int)
    ensures 0 <= code <= 2
    ensures t == PointLight <==> code == 0
    ensures t == DirectionalLight <==> code == 1
  {
    match t
    case PointLight => 0
    case DirectionalLight => 1
    case SpotLight => 2
  }

  /** A light direction: stored as given, or as glm::normalize of a vector (the square root is
      not computed; the value records what was normalised). */
  datatype LightDirection = Given(v: Vec2) | NormalOf(of: Vec2)

  datatype Light = Light(
    kind: LightType, position: Vec2, direction: LightDirection, color: Vec3,
    intensity: real, range: real, innerAngle: real, outerAngle: real, bloom: real,
    isDirectional: bool)

  const White: Vec3 := (1.0, 1.0, 1.0)

  /** The point-light constructor: pointing down, a full circle (2 * 3.14159) of outer angle. */
  function MakePointLight(pos: Vec2, range: real, color: Vec3 := White, intensity: real := 1.0,
                          bloom: real := 0.0): (l: Light)
    ensures l.kind == PointLight && !l.isDirectional
    ensures l.position == pos && l.range == range && l.color == color && l.intensity == intensity
    ensures l.direction == Given((0.0, -1.0)) && l.innerAngle == 0.0 && l.outerAngle == 6.28318
  {
    Light(PointLight, pos, Given((0.0, -1.0)), color, intensity, range, 0.0, 2.0 * 3.14159, bloom, false)
  }

  /** The spot-light constructor: the inner angle is 0.8 of the cone angle. */
  function MakeSpotLight(pos: Vec2, dir: Vec2, range: real, coneAngle: real, color: Vec3 := White,
                         intensity: real := 1.0, bloom: real := 0.0): (l: Light)
    ensures l.kind == SpotLight && l.isDirectional && l.direction == NormalOf(dir)
    ensures l.outerAngle == coneAngle && l.innerAngle * 10.0 == coneAngle * 8.0
    ensures l.position == pos && l.range == range
  {
    Light(SpotLight, pos, NormalOf(dir), color, intensity, range, coneAngle * 0.8, coneAngle, bloom, true)
  }

  /** Light::CreateDirectionalLight: no position, range or angles. */
  function CreateDirectionalLight(dir: Vec2, color: Vec3 := White, intensity: real := 1.0,
                                  bloom: real := 0.0): (l: Light)
    ensures l.kind == DirectionalLight && l.isDirectional && l.direction == NormalOf(dir)
    ensures l.position == (0.0, 0.0) && l.range == 0.0 && l.innerAngle == 0.0 && l.outerAngle == 0.0
  {
    Light(DirectionalLight, (0.0, 0.0), NormalOf(dir), color, intensity, 0.0, 0.0, 0.0, bloom, true)
  }

  /** Light::CreateSpotLight: separate inner and outer angles. */
  function CreateSpotLight(pos: Vec2, dir: Vec2, range: real, innerAngle: real, outerAngle: real,
                           color: Vec3 := White, intensity: real := 1.0, bloom: real := 0.0): (l: Light)
    ensures l.kind == SpotLight && l.isDirectional && l.direction == NormalOf(dir)
    ensures l.innerAngle == innerAngle && l.outerAngle == outerAngle
    ensures l.position == pos && l.range == range
  {
    Light(SpotLight, pos, NormalOf(dir), color, intensity, range, innerAngle, outerAngle, bloom, true)
  }

  /** LightConfig and its defaults. */
  datatype LightConfig = LightConfig(
    shadowSoftness: real, ambientLight: real, ambientColor: Vec3, shadowLength: real,
    enableShadows: bool, bloom: real, lightType: LightType)

  const DefaultLightConfig := LightConfig(0.5, 0.1, (0.2, 0.2, 0.3), 1000.0, true, 0.0, PointLight)

  /** The uniforms one light frame sets. */
  datatype LightUniforms = LightUniforms(
    shadowSoftness: real, ambientLight: real, ambientColor: Vec3, shadowLength: real,
    enableShadows: bool, lightCount: int, lights: seq<Light>, obstacleCount: int,
    obstacles: seq<Obstacle>)

  /** What a frame uploads: the configuration, the frame's first 16 lights and the first 32
      stored obstacles. */
  function LightFrame(lights: seq<Light>, c: LightConfig, obstacles: seq<Obstacle>): (u: LightUniforms)
    ensures u.shadowSoftness == c.shadowSoftness && u.ambientLight == c.ambientLight
    ensures u.ambientColor == c.ambientColor && u.shadowLength == c.shadowLength
    ensures u.enableShadows == c.enableShadows
    ensures u.lightCount == Min(|lights|, MaxLightUniforms) && u.lights == lights[..u.lightCount]
    ensures |lights| <= MaxLightUniforms ==> u.lights == lights
    ensures u.obstacleCount == Min(|obstacles|, MaxObstacleUniforms) && u.obstacles == obstacles[..u.obstacleCount]
    ensures |obstacles| <= MaxObstacleUniforms ==> u.obstacles == obstacles
  {
    var n, m := Min(|lights|, MaxLightUniforms), Min(|obstacles|, MaxObstacleUniforms);
    LightUniforms(c.shadowSoftness, c.ambientLight, c.ambientColor, c.shadowLength, c.enableShadows,
                  n, lights[..n], m, obstacles[..m])
  }

  class LightRenderer2D {
    var lights: seq<Light>
    var obstacles: seq<Obstacle>
    var config: LightConfig
    var windowWidth: int
    var windowHeight: int
    var debugMode: bool
    const shader: Shader
    const batch: QuadBatch
    /** What the last frame uploaded. */
    var uniforms: Option<LightUniforms>

    ghost predicate Valid()
      reads this, batch
    {
      batch.Valid()
    }

    /** The constructor; compiling the shader is outside the model, so its id is a parameter. */
    constructor (width: int, height: int, shaderProgram: Shader)
      ensures Valid() && fresh(batch)
      ensures windowWidth == width && windowHeight == height && !debugMode
      ensures lights == [] && obstacles == [] && config == DefaultLightConfig && shader == shaderProgram
      ensures uniforms.None? && batch.drawn == []
    {
      lights, obstacles, config := [], [], DefaultLightConfig;
      windowWidth, windowHeight, debugMode := width, height, false;
      shader := shaderProgram;
      batch := new QuadBatch();
      uniforms := None;
    }

    method AddLight(light: Light)
      modifies this`lights
      ensures lights == old(lights) + [light]
    {
      lights := lights + [light];
    }

    method AddLights(more: seq<Light>)
      modifies this`lights
      ensures lights == old(lights) + more
    {
      lights := lights + more;
    }

    method ClearLights()
      modifies this`lights
      ensures lights == []
    {
      lights := [];
    }

    /** RemoveLight: an index in range loses that light, the others keep their order; any other
        index changes nothing. */
    method RemoveLight(index: nat)
      modifies this`lights
      ensures index < |old(lights)| ==> lights == RemoveAt(old(lights), index)
      ensures index >= |old(lights)| ==> lights == old(lights)
    {
      if index < |lights| {
        lights := lights[..index] + lights[index + 1..];
      }
    }

    /** UpdateLight: an index in range has its light replaced; any other index changes nothing. */
    method UpdateLight(index: nat, light: Light)
      modifies this`lights
      ensures index < |old(lights)| ==> lights == old(lights)[index := light]
      ensures index >= |old(lights)| ==> lights == old(lights)
    {
      if index < |lights| {
        lights := lights[index := light];
      }
    }

    method AddPointLight(position: Vec2, range: real, color: Vec3 := White, intensity: real := 1.0)
      modifies this`lights
      ensures lights == old(lights) + [MakePointLight(position, range, color, intensity)]
    {
      lights := lights + [MakePointLight(position, range, color, intensity)];
    }

    method AddSpotLight(position: Vec2, direction: Vec2, range: real, angle: real,
                        color: Vec3 := White, intensity: real := 1.0)
      modifies this`lights
      ensures lights == old(lights) + [MakeSpotLight(position, direction, range, angle, color, intensity)]
    {
      lights := lights + [MakeSpotLight(position, direction, range, angle, color, intensity)];
    }

    method AddDirectionalLight(direction: Vec2, color: Vec3 := White, intensity: real := 1.0)
      modifies this`lights
      ensures lights == old(lights) + [CreateDirectionalLight(direction, color, intensity)]
    {
      lights := lights + [CreateDirectionalLight(direction, color, intensity)];
    }

    method AddAdvancedSpotLight(position: Vec2, direction: Vec2, range: real, innerAngle: real,
                                outerAngle: real, color: Vec3 := White, intensity: real := 1.0)
      modifies this`lights
      ensures lights == old(lights) + [CreateSpotLight(position, direction, range, innerAngle, outerAngle, color, intensity)]
    {
      lights := lights + [CreateSpotLight(position, direction, range, innerAngle, outerAngle, color, intensity)];
    }

    method AddObstacle(position: Vec2, size: Vec2)
      modifies this`obstacles
      ensures obstacles == old(obstacles) + [Obstacle(position, size)]
    {
      obstacles := obstacles + [Obstacle(position, size)];
    }

    method AddObstacles(more: seq<Obstacle>)
      modifies this`obstacles
      ensures obstacles == old(obstacles) + more
    {
      obstacles := obstacles + more;
    }

    method ClearObstacles()
      modifies this`obstacles
      ensures obstacles == []
    {
      obstacles := [];
    }

    method RemoveObstacle(index: nat)
      modifies this`obstacles
      ensures index < |old(obstacles)| ==> obstacles == RemoveAt(old(obstacles), index)
      ensures index >= |old(obstacles)| ==> obstacles == old(obstacles)
    {
      if index < |obstacles| {
        obstacles := obstacles[..index] + obstacles[index + 1..];
      }
    }

    method SetLightConfig(c: LightConfig)
      modifies this`config
      ensures config == c
    {
      config := c;
    }

    function GetLightConfig(): (c: LightConfig)
      reads this
      ensures c == config
    {
      config
    }

    method SetWindowSize(width: int, height: int)
      modifies this`windowWidth, this`windowHeight
      ensures windowWidth == width && windowHeight == height
    {
      windowWidth, windowHeight := width, height;
    }

    method SetDebugMode(enabled: bool)
      modifies this`debugMode
      ensures debugMode == enabled
    {
      debugMode := enabled;
    }

    /** UpdateShaderUniforms: the configuration, the first 16 of the frame's lights (the
        argument, not the stored list) and the first 32 stored obstacles. */
    method UpdateShaderUniforms(frameLights: seq<Light>, c: LightConfig)
      modifies this`uniforms
      ensures uniforms == Some(LightFrame(frameLights, c, obstacles))
    {
      var lightCount, sentLights := UploadPrefix(frameLights, MaxLightUniforms);
      var obstacleCount, sentObstacles := UploadPrefix(obstacles, MaxObstacleUniforms);
      uniforms := Some(LightUniforms(c.shadowSoftness, c.ambientLight, c.ambientColor, c.shadowLength,
        c.enableShadows, lightCount, sentLights, obstacleCount, sentObstacles));
    }

    /** DrawLightingOverlay: Begin with the light shader, upload the uniforms, draw one
        full-window quad, End. */
    method DrawLightingOverlay(frameLights: seq<Light>, c: LightConfig := DefaultLightConfig)
      requires Valid()
      modifies this`uniforms, batch
      ensures Valid()
      ensures uniforms == Some(LightFrame(frameLights, c, obstacles))
      ensures batch.drawn == old(batch.drawn) + [[FullScreenQuad(windowWidth, windowHeight)]]
      ensures batch.drawnWith == old(batch.drawnWith) + [shader]
    {
      batch.Begin(Some(shader));
      UpdateShaderUniforms(frameLights, c);
      var quad := FullScreenQuad(windowWidth, windowHeight);
      batch.Add(quad);
      assert batch.instances == [quad];
      batch.End();
    }
  }
}

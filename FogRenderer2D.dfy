// The fog overlay (omnidirectional line of sight): obstacles edited in place, a stored
// configuration, and three DrawFogQuad overloads that all end in the same frame: Begin with the
// fog shader, upload the uniforms, draw one full-window quad, End.

module Fog {
  import opened Base
  import opened QuadBatches
  import opened Vision

  /** FogConfig and its defaults. */
  datatype FogConfig = FogConfig(range: real, shadowSoftness: real, fogColor: (real, real, real, real))

  const DefaultFogConfig := FogConfig(400.0, 0.3, (0.0, 0.0, 0.0, 0.85))

  /** The uniforms one fog frame sets. */
  datatype FogUniforms = FogUniforms(
    playerPos: Vec2, range: real, fogColor: (real, real, real, real), shadowSoftness: real,
    obstacleCount: int, obstacles: seq<Obstacle>)

  /** What a frame uploads for a player position, a configuration and the stored obstacles. */
  function FogFrame(playerPos: Vec2, c: FogConfig, obstacles: seq<Obstacle>): (u: FogUniforms)
    ensures u.playerPos == playerPos && u.range == c.range && u.fogColor == c.fogColor
    ensures u.shadowSoftness == c.shadowSoftness
    ensures u.obstacleCount == Min(|obstacles|, MaxObstacleUniforms) && u.obstacles == obstacles[..u.obstacleCount]
    ensures |obstacles| <= MaxObstacleUniforms ==> u.obstacles == obstacles
    ensures |obstacles| > MaxObstacleUniforms ==> u.obstacleCount == MaxObstacleUniforms
  {
    var n := Min(|obstacles|, MaxObstacleUniforms);
    FogUniforms(playerPos, c.range, c.fogColor, c.shadowSoftness, n, obstacles[..n])
  }

  /** The configuration the legacy overload builds: the radius as range, the softness scaled by
      0.01, the fog color. */
  function LegacyConfig(radius: real, softness: real, fogColor: (real, real, real, real)): (c: FogConfig)
    ensures c.range == radius && c.shadowSoftness * 100.0 == softness && c.fogColor == fogColor
  {
    FogConfig(radius, softness * 0.01, fogColor)
  }

  class FogRenderer2D {
    var obstacles: seq<Obstacle>
    var config: FogConfig
    var windowWidth: int
    var windowHeight: int
    var debugMode: bool
    const shader: Shader
    const batch: QuadBatch
    /** What the last frame uploaded. */
    var uniforms: Option<FogUniforms>

    ghost predicate Valid()
      reads this, batch
    {
      batch.Valid()
    }

    /** The constructor; compiling the shader is outside the model, so its id is a parameter. */
    constructor (width: int, height: int, shaderProgram: Shader)
      ensures Valid() && fresh(batch)
      ensures windowWidth == width && windowHeight == height && !debugMode
      ensures obstacles == [] && config == DefaultFogConfig && shader == shaderProgram
      ensures uniforms.None? && batch.drawn == []
    {
      obstacles, config := [], DefaultFogConfig;
      windowWidth, windowHeight, debugMode := width, height, false;
      shader := shaderProgram;
      batch := new QuadBatch();
      uniforms := None;
    }

    method AddObstacle(position: Vec2, size: Vec2)
      modifies this`obstacles
      ensures obstacles == old(obstacles) + [Obstacle(position, size)]
    {
      obstacles := obstacles + [Obstacle(position, size)];
    }

    method AddObstacles(more: seq<Obstacle>)
      modifies this`obstacles
      ensures obstacles == old(obstacles) + more
    {
      obstacles := obstacles + more;
    }

    method ClearObstacles()
      modifies this`obstacles
      ensures obstacles == []
    {
      obstacles := [];
    }

    /** RemoveObstacle: an index in range loses that obstacle, the others keep their order;
        any other index changes nothing. */
    method RemoveObstacle(index: nat)
      modifies this`obstacles
      ensures index < |old(obstacles)| ==> obstacles == RemoveAt(old(obstacles), index)
      ensures index >= |old(obstacles)| ==> obstacles == old(obstacles)
    {
      if index < |obstacles| {
        obstacles := obstacles[..index] + obstacles[index + 1..];
      }
    }

    method SetFogConfig(c: FogConfig)
      modifies this`config
      ensures config == c
    {
      config := c;
    }

    function GetFogConfig(): (c: FogConfig)
      reads this
      ensures c == config
    {
      config
    }

    method SetWindowSize(width: int, height: int)
      modifies this`windowWidth, this`windowHeight
      ensures windowWidth == width && windowHeight == height
    {
      windowWidth, windowHeight := width, height;
    }

    method SetDebugMode(enabled: bool)
      modifies this`debugMode
      ensures debugMode == enabled
    {
      debugMode := enabled;
    }

    /** UpdateShaderUniforms: the frame's parameters and the first 32 stored obstacles. */
    method UpdateShaderUniforms(playerPos: Vec2, c: FogConfig)
      modifies this`uniforms
      ensures uniforms == Some(FogFrame(playerPos, c, obstacles))
    {
      var count, sent := UploadPrefix(obstacles, MaxObstacleUniforms);
      uniforms := Some(FogUniforms(playerPos, c.range, c.fogColor, c.shadowSoftness, count, sent));
    }

    /** DrawFogQuad(playerPos, config): one frame with the given configuration (not the stored one). */
    method DrawFogQuad(playerPos: Vec2, c: FogConfig := DefaultFogConfig)
      requires Valid()
      modifies this`uniforms, batch
      ensures Valid()
      ensures uniforms == Some(FogFrame(playerPos, c, obstacles))
      ensures batch.drawn == old(batch.drawn) + [[FullScreenQuad(windowWidth, windowHeight)]]
      ensures batch.drawnWith == old(batch.drawnWith) + [shader]
    {
      batch.Begin(Some(shader));
      UpdateShaderUniforms(playerPos, c);
      var quad := FullScreenQuad(windowWidth, windowHeight);
      batch.Add(quad);
      assert batch.instances == [quad];
      batch.End();
    }

    /** The overload with a direction draws the same frame: the direction is ignored. */
    method DrawFogQuadFacing(playerPos: Vec2, playerDirection: Vec2, c: FogConfig := DefaultFogConfig)
      requires Valid()
      modifies this`uniforms, batch
      ensures Valid()
      ensures uniforms == Some(FogFrame(playerPos, c, obstacles))
      ensures batch.drawn == old(batch.drawn) + [[FullScreenQuad(windowWidth, windowHeight)]]
      ensures batch.drawnWith == old(batch.drawnWith) + [shader]
    {
      DrawFogQuad(playerPos, c);
    }

    /** The legacy overload: a frame with the configuration built from its parameters. */
    method DrawFogQuadLegacy(playerPos: Vec2, radius: real, softness: real, fogColor: (real, real, real, real))
      requires Valid()
      modifies this`uniforms, batch
      ensures Valid()
      ensures uniforms == Some(FogFrame(playerPos, LegacyConfig(radius, softness, fogColor), obstacles))
      ensures batch.drawn == old(batch.drawn) + [[FullScreenQuad(windowWidth, windowHeight)]]
      ensures batch.drawnWith == old(batch.drawnWith) + [shader]
    {
      DrawFogQuad(playerPos, LegacyConfig(radius, softness, fogColor));
    }
  }
}

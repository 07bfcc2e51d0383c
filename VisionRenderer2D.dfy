// The vision overlay: a list of obstacles edited in place, a stored configuration, and the
// per-frame uniform upload, which sends at most MaxObstacleUniforms obstacles. The obstacle type
// is declared here and shared by the fog and light renderers. Ray casting and the cone test are
// floating-point geometry and are outside the model.

module Vision {
  import opened Base
  import opened QuadBatches

  type Vec2 = (real, real)

  /** Obstacle: a box given by its centre and size. */
  datatype Obstacle = Obstacle(position: Vec2, size: Vec2)

  /** The shader arrays hold 32 obstacles. */
  const MaxObstacleUniforms: nat := 32

  /** VisionConfig and its defaults. */
  datatype VisionConfig = VisionConfig(
    range: real, angle: real, shadowLength: real, shadowSoftness: real,
    darkColor: (real, real, real, real))

  const DefaultVisionConfig := VisionConfig(300.0, 1.0472, 500.0, 0.5, (0.0, 0.0, 0.0, 0.8))

  /** A direction as the shader receives it: glm::normalize of the given vector. The square root
      is not computed; the value records what was normalised. */
  datatype Direction = Normalized(of: Vec2)

  /** The uniforms one vision frame sets. */
  datatype VisionUniforms = VisionUniforms(
    playerPos: Vec2, playerDirection: Direction, range: real, angle: real,
    darkColor: (real, real, real, real), shadowLength: real, shadowSoftness: real,
    obstacleCount: int, obstacles: seq<Obstacle>)

  /** What a frame uploads for a player position and direction, a configuration and the stored
      obstacles: the direction normalised, every value of the configuration, and at most
      MaxObstacleUniforms obstacles, the first ones in order. */
  function VisionFrame(playerPos: Vec2, playerDirection: Vec2, c: VisionConfig, obstacles: seq<Obstacle>): (u: VisionUniforms)
    ensures u.playerPos == playerPos && u.playerDirection == Normalized(playerDirection)
    ensures u.range == c.range && u.angle == c.angle && u.darkColor == c.darkColor
    ensures u.shadowLength == c.shadowLength && u.shadowSoftness == c.shadowSoftness
    ensures u.obstacleCount == Min(|obstacles|, MaxObstacleUniforms) && u.obstacles == obstacles[..u.obstacleCount]
    ensures |obstacles| <= MaxObstacleUniforms ==> u.obstacles == obstacles
    ensures |obstacles| > MaxObstacleUniforms ==> u.obstacleCount == MaxObstacleUniforms
  {
    var n := Min(|obstacles|, MaxObstacleUniforms);
    VisionUniforms(playerPos, Normalized(playerDirection), c.range, c.angle, c.darkColor, c.shadowLength, c.shadowSoftness,
                   n, obstacles[..n])
  }

  /** The upload loop: the first min(|xs|, cap) elements, in order. */
  method UploadPrefix<T>(xs: seq<T>, cap: nat) returns (count: int, sent: seq<T>)
    ensures count == Min(|xs|, cap) && |sent| == count
    ensures sent == xs[..count]
    ensures |xs| <= cap ==> sent == xs
  {
    count := Min(|xs|, cap);
    sent := [];
    for i := 0 to count
      invariant sent == xs[..i]
    {
      sent := sent + [xs[i]];
    }
  }

  class VisionRenderer2D {
    var obstacles: seq<Obstacle>
    var config: VisionConfig
    var windowWidth: int
    var windowHeight: int
    var debugMode: bool
    const shader: Shader
    const batch: QuadBatch
    /** What the last frame uploaded. */
    var uniforms: Option<VisionUniforms>

    ghost predicate Valid()
      reads this, batch
    {
      batch.Valid()
    }

    /** The constructor: the window size, no obstacles, the default configuration, debug off, and
        a fresh quad batch; compiling the shader is outside the model, so its id is a parameter. */
    constructor (width: int, height: int, shaderProgram: Shader)
      ensures Valid() && fresh(batch)
      ensures windowWidth == width && windowHeight == height && !debugMode
      ensures obstacles == [] && config == DefaultVisionConfig && shader == shaderProgram
      ensures uniforms.None? && batch.drawn == []
    {
      obstacles, config := [], DefaultVisionConfig;
      windowWidth, windowHeight, debugMode := width, height, false;
      shader := shaderProgram;
      batch := new QuadBatch();
      uniforms := None;
    }

    /** Both AddObstacle overloads: one obstacle at the end. */
    method AddObstacle(position: Vec2, size: Vec2)
      modifies this`obstacles
      ensures obstacles == old(obstacles) + [Obstacle(position, size)]
    {
      obstacles := obstacles + [Obstacle(position, size)];
    }

    method AddObstacles(more: seq<Obstacle>)
      modifies this`obstacles
      ensures obstacles == old(obstacles) + more
    {
      obstacles := obstacles + more;
    }

    method ClearObstacles()
      modifies this`obstacles
      ensures obstacles == []
    {
      obstacles := [];
    }

    /** RemoveObstacle: an index in range loses that obstacle, the others keep their order;
        any other index changes nothing. */
    method RemoveObstacle(index: nat)
      modifies this`obstacles
      ensures index < |old(obstacles)| ==> obstacles == RemoveAt(old(obstacles), index)
      ensures index >= |old(obstacles)| ==> obstacles == old(obstacles)
    {
      if index < |obstacles| {
        obstacles := obstacles[..index] + obstacles[index + 1..];
      }
    }

    method SetVisionConfig(c: VisionConfig)
      modifies this`config
      ensures config == c
    {
      config := c;
    }

    function GetVisionConfig(): (c: VisionConfig)
      reads this
      ensures c == config
    {
      config
    }

    method SetWindowSize(width: int, height: int)
      modifies this`windowWidth, this`windowHeight
      ensures windowWidth == width && windowHeight == height
    {
      windowWidth, windowHeight := width, height;
    }

    method SetDebugMode(enabled: bool)
      modifies this`debugMode
      ensures debugMode == enabled
    {
      debugMode := enabled;
    }

    /** UpdateShaderUniforms: the frame's parameters and the first 32 stored obstacles. */
    method UpdateShaderUniforms(playerPos: Vec2, playerDirection: Vec2, c: VisionConfig)
      modifies this`uniforms
      ensures uniforms == Some(VisionFrame(playerPos, playerDirection, c, obstacles))
    {
      var count, sent := UploadPrefix(obstacles, MaxObstacleUniforms);
      uniforms := Some(VisionUniforms(playerPos, Normalized(playerDirection), c.range, c.angle,
        c.darkColor, c.shadowLength, c.shadowSoftness, count, sent));
    }

    /** DrawVisionOverlay: Begin with the vision shader, upload the uniforms for the given
        configuration (not the stored one), then draw one full-window quad. */
    method DrawVisionOverlay(playerPos: Vec2, playerDirection: Vec2, c: VisionConfig := DefaultVisionConfig)
      requires Valid()
      modifies this`uniforms, batch
      ensures Valid()
      ensures uniforms == Some(VisionFrame(playerPos, playerDirection, c, obstacles))
      ensures batch.drawn == old(batch.drawn) + [[FullScreenQuad(windowWidth, windowHeight)]]
      ensures batch.drawnWith == old(batch.drawnWith) + [shader]
    {
      batch.Begin(Some(shader));
      UpdateShaderUniforms(playerPos, playerDirection, c);
      var quad := FullScreenQuad(windowWidth, windowHeight);
      batch.Add(quad);
      assert batch.instances == [quad];
      batch.End();
    }
  }
}

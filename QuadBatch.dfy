// QuadBatch: a bounded buffer of quad instances. Add appends and flushes when the buffer reaches
// MaxQuads; Flush draws what is pending with the current shader and empties the buffer. The GL
// calls of a flush become one entry in the list of drawn batches.

module QuadBatches {
  import opened Base

  const MaxQuads: nat := 2048

  /** QuadInstance (position, size, rotation, RGBA color, texture index), with floats as reals. */
  datatype QuadInstance = QuadInstance(
    position: (real, real), size: (real, real), rotation: real,
    color: (real, real, real, real), texIndex: real)

  /** A shader program, known by its GL id. */
  datatype Shader = Shader(id: nat)

  /** The instances of the batches, in drawing order. */
  function Flatten(batches: seq<seq<QuadInstance>>): (all: seq<QuadInstance>)
    ensures batches == [] ==> all == []
  {
    if batches == [] then [] else Flatten(batches[..|batches| - 1]) + batches[|batches| - 1]
  }

  /** Drawing one more batch adds its instances at the end. */
  lemma FlattenSnoc(batches: seq<seq<QuadInstance>>, b: seq<QuadInstance>)
    ensures Flatten(batches + [b]) == Flatten(batches) + b
  {
    assert (batches + [b])[..|batches|] == batches;
  }

  /** Flattening distributes over concatenation. */
  lemma {:induction false} FlattenConcat(a: seq<seq<QuadInstance>>, b: seq<seq<QuadInstance>>)
    ensures Flatten(a + b) == Flatten(a) + Flatten(b)
    decreases |b|
  {
    if b == [] {
      assert a + b == a;
    } else {
      var c, last := b[..|b| - 1], b[|b| - 1];
      assert a + b == (a + c) + [last];
      assert b == c + [last];
      FlattenConcat(a, c);
      FlattenSnoc(a + c, last);
      FlattenSnoc(c, last);
    }
  }

  /** The full-window quad the overlay renderers draw: centred, 100 pixels larger than the
      window in each direction, unrotated, white, texture 0. */
  function FullScreenQuad(width: int, height: int): (q: QuadInstance)
    ensures q.position.0 * 2.0 == width as real && q.position.1 * 2.0 == height as real
    ensures q.size == (width as real + 100.0, height as real + 100.0)
    ensures q.rotation == 0.0 && q.color == (1.0, 1.0, 1.0, 1.0) && q.texIndex == 0.0
  {
    QuadInstance((width as real * 0.5, height as real * 0.5),
                 (width as real + 100.0, height as real + 100.0),
                 0.0, (1.0, 1.0, 1.0, 1.0), 0.0)
  }

  class QuadBatch {
    /** m_Instances: added and not yet drawn. */
    var instances: seq<QuadInstance>
    /** m_CurrentShader; None is no shader. */
    var currentShader: Option<Shader>
    /** Every batch a flush has drawn, each with the shader it was drawn with. */
    var drawn: seq<seq<QuadInstance>>
    var drawnWith: seq<Shader>
    /** The instances added since the last Begin, and how many batches had been drawn then. */
    ghost var added: seq<QuadInstance>
    ghost var sessionStart: nat

    /** No batch is larger than MaxQuads, and with a shader set what this session has drawn
        followed by what is pending is what it has added. */
    ghost predicate Consistent()
      reads this
    {
      && |drawnWith| == |drawn|
      && sessionStart <= |drawn|
      && (forall k | 0 <= k < |drawn| :: |drawn[k]| <= MaxQuads)
      && (currentShader.Some? ==> Flatten(drawn[sessionStart..]) + instances == added)
    }

    /** Between calls, with a shader set, the buffer also stays below MaxQuads. */
    ghost predicate Valid()
      reads this
    {
      Consistent() && (currentShader.Some? ==> |instances| < MaxQuads)
    }

    constructor ()
      ensures Valid() && instances == [] && currentShader.None? && drawn == []
    {
      instances, currentShader, drawn, drawnWith := [], None, [], [];
      added, sessionStart := [], 0;
    }

    /** Begin: remembers the shader (a missing one is only logged) and empties the buffer. */
    method Begin(shader: Option<Shader>)
      requires Valid()
      modifies this
      ensures Valid() && currentShader == shader && instances == []
      ensures drawn == old(drawn) && drawnWith == old(drawnWith)
      ensures added == [] && sessionStart == |drawn|
    {
      currentShader := shader;
      instances := [];
      added, sessionStart := [], |drawn|;
    }

    /** Flush: without a shader nothing happens; with one, the pending instances are drawn as one
        batch, in order, and the buffer is emptied. */
    method Flush()
      requires Consistent() && (currentShader.Some? ==> |instances| <= MaxQuads)
      modifies this`instances, this`drawn, this`drawnWith
      ensures old(currentShader).None? ==> instances == old(instances) && drawn == old(drawn)
      ensures old(currentShader).None? ==> drawnWith == old(drawnWith)
      ensures old(currentShader).Some? ==> instances == [] && drawn == old(drawn) + [old(instances)]
      ensures old(currentShader).Some? ==> drawnWith == old(drawnWith) + [old(currentShader).value]
      ensures old(currentShader).None? ==> Consistent()
      ensures old(currentShader).Some? ==> Valid()
    {
      if currentShader.None? {
        return;
      }
      assert drawn[sessionStart..] + [instances] == (drawn + [instances])[sessionStart..];
      FlattenSnoc(drawn[sessionStart..], instances);
      drawn := drawn + [instances];
      drawnWith := drawnWith + [currentShader.value];
      instances := [];
    }

    /** Add: appends the instance; a buffer that reaches MaxQuads is flushed. */
    method Add(instance: QuadInstance)
      requires Valid()
      modifies this
      ensures Valid() && currentShader == old(currentShader) && sessionStart == old(sessionStart)
      ensures added == old(added) + [instance]
      ensures |old(instances)| + 1 < MaxQuads || currentShader.None? ==>
        instances == old(instances) + [instance] && drawn == old(drawn) && drawnWith == old(drawnWith)
      ensures currentShader.Some? && |old(instances)| + 1 == MaxQuads ==>
        && instances == [] && drawn == old(drawn) + [old(instances) + [instance]]
        && drawnWith == old(drawnWith) + [currentShader.value]
    {
      instances := instances + [instance];
      added := added + [instance];
      if |instances| >= MaxQuads {
        Flush();
      }
    }

    /** End: flushes when something is pending, then forgets the shader. With a shader set, the
        batches drawn since Begin hold exactly the instances added since Begin. */
    method End()
      requires Valid()
      modifies this
      ensures Valid() && currentShader.None? && sessionStart == old(sessionStart)
      ensures old(currentShader).Some? ==> instances == [] && Flatten(drawn[sessionStart..]) == added
      ensures old(currentShader).Some? && old(instances) != [] ==>
        drawn == old(drawn) + [old(instances)] && drawnWith == old(drawnWith) + [old(currentShader).value]
      ensures old(instances) == [] || old(currentShader).None? ==>
        drawn == old(drawn) && drawnWith == old(drawnWith)
      ensures old(currentShader).None? ==> instances == old(instances)
    {
      if instances != [] {
        Flush();
      }
      currentShader := None;
    }
  }

  /** What each overlay renderer does per frame: Begin with its shader, Add one quad, End. With a
      shader the quad is drawn as a batch of its own. */
  method DrawSingleQuad(batch: QuadBatch, shader: Option<Shader>, quad: QuadInstance)
    requires batch.Valid()
    modifies batch
    ensures batch.Valid() && batch.currentShader.None?
    ensures shader.Some? ==> batch.drawn == old(batch.drawn) + [[quad]] && batch.instances == []
    ensures shader.Some? ==> batch.drawnWith == old(batch.drawnWith) + [shader.value]
    ensures shader.None? ==> batch.drawn == old(batch.drawn) && batch.instances == [quad]
  {
    batch.Begin(shader);
    batch.Add(quad);
    assert batch.instances == [quad];
    batch.End();
  }
}

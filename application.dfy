/**
 * The application object of both variants, reduced to the state the core
 * touches: the CPU copies of the mesh (`vertices`, `indices`), the window
 * size, whether a render-target view and a depth-stencil view exist and how
 * large the depth buffer is. The device calls the object issues are returned
 * as a list of `GpuCall`s, so that their order can be stated and checked
 * against the rules of the swap chain.
 */
module Renderer {
  import opened HeightField
  import opened Mesh

  datatype Option<T> = None | Some(value: T)

  /** The stage of resource loading that reported a failure. */
  datatype LoadStage = SkinTexture | DepthTexture | StagingTexture | MapStaging

  /**
   * What loading the two images and mapping the depth image for reading
   * produced: a failed stage, or the mapped image's size, its row pitch and
   * its bytes (`None` when the mapping returned a null pointer).
   */
  datatype TextureLoad =
    | LoadFailed(stage: LoadStage)
    | Mapped(width: nat, height: nat, rowPitch: nat, pixels: Option<seq<Byte>>)

  /** The load got as far as bytes to read. */
  predicate Readable(load: TextureLoad)
  {
    load.Mapped? && load.pixels.Some?
  }

  /** Some cell of the image has a non-zero byte. */
  ghost predicate HasBrightPixel(src: seq<Byte>, width: nat, height: nat, rowPitch: nat)
  {
    exists x: nat, y: nat | x < width && y < height ::
      Slot(rowPitch, x, y) < |src| && src[Slot(rowPitch, x, y)] > 0
  }

  /**
   * A mapping the mesh can be built from: a non-empty image whose rows fit in
   * the pitch and in the buffer, with at least one non-zero byte to divide by.
   */
  ghost predicate WellMapped(load: TextureLoad)
    requires Readable(load)
  {
    var src := load.pixels.value;
    0 < load.width && 0 < load.height && load.width <= load.rowPitch &&
    (load.height - 1) * load.rowPitch + load.width <= |src| &&
    HasBrightPixel(src, load.width, load.height, load.rowPitch)
  }

  /** A device or swap-chain call, in the order the application issues them. */
  datatype GpuCall =
    | UnbindRenderTargets
    | Flush
    | ReleaseRenderTarget
    | ResizeBuffers(width: nat, height: nat, ok: bool)
    | CreateRenderTarget(ok: bool)
    | CreateDepthStencil(width: nat, height: nat)
    | ClearFrame
    | ClearDepth
    | BindRenderTarget
    | DrawIndexed(count: nat)
    | Present

  /**
   * What the swap chain's rules depend on: whether the application holds a
   * render-target view of the back buffer (`held`), whether a view is bound
   * to the output-merger stage (`bound`), and whether a view unbound since
   * the last flush may still be referenced by the context (`pending`).
   */
  datatype Output = Output(held: bool, bound: bool, pending: bool)

  /** The output state after `c`. */
  function Step(s: Output, c: GpuCall): Output
  {
    match c
    case UnbindRenderTargets => s.(bound := false, pending := s.pending || s.bound)
    case Flush => s.(pending := false)
    case ReleaseRenderTarget => s.(held := false)
    case CreateRenderTarget(ok) => s.(held := ok)
    case BindRenderTarget => s.(bound := s.held)
    case _ => s
  }

  function After(s: Output, calls: seq<GpuCall>): Output
    decreases |calls|
  {
    if calls == [] then s else After(Step(s, calls[0]), calls[1..])
  }

  /**
   * The swap chain's rules for one call: the buffers may only be resized once
   * no view of the old back buffer is held, bound or awaiting a flush; a view
   * may only be bound while it exists; a frame may only be cleared and
   * presented through a render-target view, and drawn while it is bound.
   */
  predicate Allowed(s: Output, c: GpuCall)
  {
    match c
    case ResizeBuffers(_, _, _) => !s.held && !s.bound && !s.pending
    case BindRenderTarget => s.held
    case ClearFrame => s.held
    case DrawIndexed(_) => s.held && s.bound
    case Present => s.held
    case _ => true
  }

  /** Every call of `calls` is allowed in the state the calls before it leave. */
  predicate WellOrdered(s: Output, calls: seq<GpuCall>)
    decreases |calls|
  {
    calls == [] || (Allowed(s, calls[0]) && WellOrdered(Step(s, calls[0]), calls[1..]))
  }

  /** The number of indices `calls` draw. */
  function DrawnIndices(calls: seq<GpuCall>): nat
    decreases |calls|
  {
    if calls == [] then 0
    else (if calls[0].DrawIndexed? then calls[0].count else 0) + DrawnIndices(calls[1..])
  }

  /**
   * Call lists compose: `a` then `b` is well ordered exactly when `a` is and
   * `b` is from the state `a` leaves, so a session of resizes and frames can
   * be checked event by event.
   */
  lemma {:induction false} WellOrderedConcat(s: Output, a: seq<GpuCall>, b: seq<GpuCall>)
    ensures After(s, a + b) == After(After(s, a), b)
    ensures WellOrdered(s, a + b) <==> WellOrdered(s, a) && WellOrdered(After(s, a), b)
    ensures DrawnIndices(a + b) == DrawnIndices(a) + DrawnIndices(b)
    decreases |a|
  {
    if a != [] {
      assert (a + b)[0] == a[0];
      assert (a + b)[1..] == a[1..] + b;
      WellOrderedConcat(Step(s, a[0]), a[1..], b);
    } else {
      assert a + b == b;
    }
  }

  /** Issuing one more call: the composition of WellOrderedConcat with a single call. */
  lemma Append(s: Output, a: seq<GpuCall>, c: GpuCall)
    ensures After(s, a + [c]) == Step(After(s, a), c)
    ensures WellOrdered(s, a + [c]) <==> WellOrdered(s, a) && Allowed(After(s, a), c)
    ensures DrawnIndices(a + [c]) == DrawnIndices(a) + (if c.DrawIndexed? then c.count else 0)
  {
    WellOrderedConcat(s, a, [c]);
    assert [c][1..] == [];
  }

  /**
   * After a frame the view is held and bound. From there the resize goes
   * through only after all three tear-down calls: leaving out the unbind,
   * the flush or the release each breaks the rules.
   */
  lemma TearDownNeedsAllThree(w: nat, h: nat, ok: bool)
    ensures var s := Output(true, true, false);
      WellOrdered(s, [UnbindRenderTargets, Flush, ReleaseRenderTarget, ResizeBuffers(w, h, ok)]) &&
      !WellOrdered(s, [Flush, ReleaseRenderTarget, ResizeBuffers(w, h, ok)]) &&
      !WellOrdered(s, [UnbindRenderTargets, ReleaseRenderTarget, ResizeBuffers(w, h, ok)]) &&
      !WellOrdered(s, [UnbindRenderTargets, Flush, ResizeBuffers(w, h, ok)])
  {
    var s := Output(true, true, false);
    var resize := ResizeBuffers(w, h, ok);
    var u := Step(s, UnbindRenderTargets);
    var uf := Step(u, Flush);
    assert WellOrdered(Step(uf, ReleaseRenderTarget), [resize]);
    assert [UnbindRenderTargets, Flush, ReleaseRenderTarget, resize][1..] == [Flush, ReleaseRenderTarget, resize];
    assert [Flush, ReleaseRenderTarget, resize][1..] == [ReleaseRenderTarget, resize];
    assert [ReleaseRenderTarget, resize][1..] == [resize];
    assert WellOrdered(uf, [ReleaseRenderTarget, resize]);
    assert !WellOrdered(Step(Step(s, Flush), ReleaseRenderTarget), [resize]);
    assert [UnbindRenderTargets, ReleaseRenderTarget, resize][1..] == [ReleaseRenderTarget, resize];
    assert !WellOrdered(Step(u, ReleaseRenderTarget), [resize]);
    assert [UnbindRenderTargets, Flush, resize][1..] == [Flush, resize];
    assert [Flush, resize][1..] == [resize];
    assert !WellOrdered(uf, [resize]);
  }

  /** The tear-down and rebuild of the resize handler is allowed from any state. */
  lemma ResizeOrdered(s: Output, w: nat, h: nat, resizeOk: bool, createOk: bool)
    ensures var down := [UnbindRenderTargets, Flush, ReleaseRenderTarget, ResizeBuffers(w, h, resizeOk)];
      WellOrdered(s, down) && After(s, down) == Output(false, false, false) && DrawnIndices(down) == 0
    ensures var all := [UnbindRenderTargets, Flush, ReleaseRenderTarget, ResizeBuffers(w, h, resizeOk)] +
                       [CreateRenderTarget(createOk), CreateDepthStencil(w, h)];
      WellOrdered(s, all) && After(s, all) == Output(createOk, false, false) && DrawnIndices(all) == 0
  {
    var c0: seq<GpuCall> := [];
    Append(s, c0, UnbindRenderTargets);
    var c1 := c0 + [UnbindRenderTargets];
    Append(s, c1, Flush);
    var c2 := c1 + [Flush];
    Append(s, c2, ReleaseRenderTarget);
    var c3 := c2 + [ReleaseRenderTarget];
    Append(s, c3, ResizeBuffers(w, h, resizeOk));
    var c4 := c3 + [ResizeBuffers(w, h, resizeOk)];
    Append(s, c4, CreateRenderTarget(createOk));
    var c5 := c4 + [CreateRenderTarget(createOk)];
    Append(s, c5, CreateDepthStencil(w, h));
    var c6 := c5 + [CreateDepthStencil(w, h)];
    assert c4 == [UnbindRenderTargets, Flush, ReleaseRenderTarget, ResizeBuffers(w, h, resizeOk)];
    assert c6 == c4 + [CreateRenderTarget(createOk), CreateDepthStencil(w, h)];
  }

  /** Draw calls issued while the view is held and bound are allowed and change nothing. */
  lemma {:induction false} DrawsKeep(t: Output, draws: seq<GpuCall>)
    requires t.held && t.bound
    requires forall i | 0 <= i < |draws| :: draws[i].DrawIndexed?
    ensures WellOrdered(t, draws) && After(t, draws) == t
    decreases |draws|
  {
    if draws != [] {
      DrawsKeep(t, draws[1..]);
    }
  }

  /**
   * A frame drawn through a held view: unbind, clear the target and the
   * depth buffer, bind, draw, present. It is allowed, leaves the view bound
   * and draws exactly the indices of its draw calls.
   */
  lemma FrameOrdered(s: Output, draws: seq<GpuCall>)
    requires s.held
    requires forall i | 0 <= i < |draws| :: draws[i].DrawIndexed?
    ensures var frame := [UnbindRenderTargets, ClearFrame, ClearDepth, BindRenderTarget] + draws + [Present];
      WellOrdered(s, frame) && After(s, frame) == Output(true, true, s.pending || s.bound) &&
      DrawnIndices(frame) == DrawnIndices(draws)
  {
    var setup := [UnbindRenderTargets, ClearFrame, ClearDepth, BindRenderTarget];
    assert setup[1..] == [ClearFrame, ClearDepth, BindRenderTarget];
    assert setup[2..] == [ClearDepth, BindRenderTarget];
    assert setup[3..] == [BindRenderTarget];
    var t := After(s, setup);
    assert t == Output(true, true, s.pending || s.bound);
    DrawsKeep(t, draws);
    WellOrderedConcat(s, setup, draws);
    WellOrderedConcat(s, setup + draws, [Present]);
  }

  /**
   * The facts the build relies on: a `width * height` grid of samples, all at
   * most `max`, which is positive.
   */
  predicate Scaled(samples: seq<Byte>, width: nat, height: nat, max: Byte)
  {
    0 < width && 0 < height && |samples| == width * height && 0 < max &&
    forall i | 0 <= i < |samples| :: samples[i] <= max
  }

  /** The vertices the build pushes for columns 0 .. x - 1 of row `y`. */
  function RowVertices(layout: Layout, samples: seq<Byte>, width: nat, height: nat, max: Byte, y: nat, x: nat): (vs: seq<Vertex>)
    requires Scaled(samples, width, height, max) && y < height && x <= width
    ensures |vs| == x
  {
    if x == 0 then []
    else
      SlotBelow(width, height, x - 1, y);
      RowVertices(layout, samples, width, height, max, y, x - 1) +
      [GridVertex(layout, width, height, max, x - 1, y, samples[Slot(width, x - 1, y)])]
  }

  /** The vertices the build pushes for rows 0 .. rows - 1. */
  function GridVertices(layout: Layout, samples: seq<Byte>, width: nat, height: nat, max: Byte, rows: nat): seq<Vertex>
    requires Scaled(samples, width, height, max) && rows <= height
  {
    if rows == 0 then []
    else GridVertices(layout, samples, width, height, max, rows - 1) + RowVertices(layout, samples, width, height, max, rows - 1, width)
  }

  /** The vertex list once the column loop has reached (x, y). */
  function VerticesUpTo(layout: Layout, samples: seq<Byte>, width: nat, height: nat, max: Byte, x: nat, y: nat): seq<Vertex>
    requires Scaled(samples, width, height, max) && y < height && x <= width
  {
    GridVertices(layout, samples, width, height, max, y) + RowVertices(layout, samples, width, height, max, y, x)
  }

  /** Pushing the vertex of (x, y) extends the vertices built so far by that column. */
  lemma VertexPush(layout: Layout, samples: seq<Byte>, width: nat, height: nat, max: Byte, y: nat, x: nat, vs: seq<Vertex>)
    requires Scaled(samples, width, height, max) && y < height && x < width
    requires vs == VerticesUpTo(layout, samples, width, height, max, x, y)
    ensures Slot(width, x, y) < |samples|
    ensures vs + [GridVertex(layout, width, height, max, x, y, samples[Slot(width, x, y)])] ==
      VerticesUpTo(layout, samples, width, height, max, x + 1, y)
  {
    SlotBelow(width, height, x, y);
  }

  lemma {:induction false} RowVerticesAt(layout: Layout, samples: seq<Byte>, width: nat, height: nat, max: Byte, y: nat, x: nat, k: nat)
    requires Scaled(samples, width, height, max) && y < height && k < x <= width
    ensures Slot(width, k, y) < |samples|
    ensures RowVertices(layout, samples, width, height, max, y, x)[k] ==
      GridVertex(layout, width, height, max, k, y, samples[Slot(width, k, y)])
    decreases x
  {
    SlotBelow(width, height, k, y);
    if k < x - 1 {
      RowVerticesAt(layout, samples, width, height, max, y, x - 1, k);
    }
  }

  lemma {:induction false} GridVerticesLength(layout: Layout, samples: seq<Byte>, width: nat, height: nat, max: Byte, rows: nat)
    requires Scaled(samples, width, height, max) && rows <= height
    ensures |GridVertices(layout, samples, width, height, max, rows)| == rows * width
    decreases rows
  {
    if rows > 0 {
      GridVerticesLength(layout, samples, width, height, max, rows - 1);
    }
  }

  lemma {:induction false} GridVerticesAt(layout: Layout, samples: seq<Byte>, width: nat, height: nat, max: Byte, rows: nat, x: nat, y: nat)
    requires Scaled(samples, width, height, max) && rows <= height && x < width && y < rows
    ensures Slot(width, x, y) < |samples|
    ensures Slot(width, x, y) < |GridVertices(layout, samples, width, height, max, rows)|
    ensures GridVertices(layout, samples, width, height, max, rows)[Slot(width, x, y)] ==
      GridVertex(layout, width, height, max, x, y, samples[Slot(width, x, y)])
    decreases rows
  {
    SlotBelow(width, height, x, y);
    SlotBelow(width, rows, x, y);
    var prefix := GridVertices(layout, samples, width, height, max, rows - 1);
    GridVerticesLength(layout, samples, width, height, max, rows - 1);
    GridVerticesLength(layout, samples, width, height, max, rows);
    assert GridVertices(layout, samples, width, height, max, rows) ==
      prefix + RowVertices(layout, samples, width, height, max, rows - 1, width);
    if y < rows - 1 {
      GridVerticesAt(layout, samples, width, height, max, rows - 1, x, y);
    } else {
      RowVerticesAt(layout, samples, width, height, max, y, width, x);
      assert Slot(width, x, y) == |prefix| + x;
    }
  }

  /** The vertices of all rows, scaled by the largest sample, are the grid mesh. */
  lemma GridVerticesIsGridMesh(layout: Layout, samples: seq<Byte>, width: nat, height: nat)
    requires IsHeightField(samples, width, height)
    ensures Scaled(samples, width, height, MaxSample(samples))
    ensures IsGridMesh(GridVertices(layout, samples, width, height, MaxSample(samples), height), layout, samples, width, height)
  {
    var max := MaxSample(samples);
    GridVerticesLength(layout, samples, width, height, max, height);
    forall x: nat, y: nat | x < width && y < height
      ensures Slot(width, x, y) < |GridVertices(layout, samples, width, height, max, height)|
      ensures GridVertices(layout, samples, width, height, max, height)[Slot(width, x, y)] ==
        GridVertex(layout, width, height, max, x, y, samples[Slot(width, x, y)])
    {
      GridVerticesAt(layout, samples, width, height, max, height, x, y);
    }
  }

  /** The index list after the column loop has visited (0, y) .. (x - 1, y). */
  function IndicesUpTo(width: nat, height: nat, x: nat, y: nat): seq<nat>
    requires 0 < width && 0 < height
  {
    GridIndices(width, y) +
    (if y < height - 1 then RowIndices(width, y, if x < width - 1 then x else width - 1) else [])
  }

  /**
   * Visiting (x, y) appends the six indices of its cell when it starts one
   * (neither last column nor last row) and nothing otherwise.
   */
  lemma IndicesStep(width: nat, height: nat, x: nat, y: nat)
    requires 0 < width && 0 < height && x < width && y < height
    ensures var a := Slot(width, x, y);
      IndicesUpTo(width, height, x + 1, y) ==
        if x < width - 1 && y < height - 1
        then IndicesUpTo(width, height, x, y) + [a, a + 1, a + width, a + width, a + 1, a + width + 1]
        else IndicesUpTo(width, height, x, y)
  {
    if x < width - 1 && y < height - 1 {
      assert RowIndices(width, y, x + 1) == RowIndices(width, y, x) + CellIndices(width, x, y);
    }
  }

  /** IndicesStep phrased on the list the loop holds. */
  lemma IndicesPush(width: nat, height: nat, x: nat, y: nat, ix: seq<nat>)
    requires 0 < width && 0 < height && x < width && y < height
    requires ix == IndicesUpTo(width, height, x, y)
    ensures x < width - 1 && y < height - 1 ==> ix + CellIndices(width, x, y) == IndicesUpTo(width, height, x + 1, y)
    ensures !(x < width - 1 && y < height - 1) ==> ix == IndicesUpTo(width, height, x + 1, y)
  {
    IndicesStep(width, height, x, y);
  }

  /** After the last column of row `y` the index list holds the cells of every row up to `y`. */
  lemma IndicesRowDone(width: nat, height: nat, y: nat)
    requires 0 < width && y < height
    ensures IndicesUpTo(width, height, width, y) == GridIndices(width, if y + 1 < height then y + 1 else height - 1)
  {
    if y + 1 < height {
      assert GridIndices(width, y + 1) == GridIndices(width, y) + RowIndices(width, y, width - 1);
    }
  }

  /**
   * One application object. `layout` chooses the variant: `HeightOnY` is
   * Application (height in y, base plate drawn), `HeightOnZ` is Application2.
   */
  class Application {
    const layout: Layout
    var vertices: seq<Vertex>
    var indices: seq<nat>
    var modelWidth: nat
    var modelHeight: nat
    /** The de-strided depth image the mesh was last built from. */
    ghost var heightMap: seq<Byte>
    var windowWidth: nat
    var windowHeight: nat
    var renderTargetPresent: bool
    /** A render-target view is bound to the output-merger stage. */
    var targetBound: bool
    /** A view was unbound since the last flush and may still be referenced. */
    var releasePending: bool
    var depthTargetPresent: bool
    var depthWidth: nat
    var depthHeight: nat

    /**
     * Whenever there is a render target to draw through, there is a depth
     * buffer, and it has the window's size (the size of the back buffer).
     */
    ghost predicate Valid()
      reads this
    {
      renderTargetPresent ==> depthTargetPresent && depthWidth == windowWidth && depthHeight == windowHeight
    }

    /** The part of the object's state the swap chain's rules read. */
    function OutputState(): Output
      reads this
    {
      Output(renderTargetPresent, targetBound, releasePending)
    }

    /** Every index the mesh draw reads names a vertex of the vertex buffer. */
    ghost predicate DrawableMesh()
      reads this
    {
      forall i | 0 <= i < |indices| :: indices[i] < |vertices|
    }

    /**
     * The object after construction and initialisation: the swap chain and
     * the render target exist (a failure there throws), the depth buffer has
     * the window's size, and no mesh is loaded yet.
     */
    constructor (layout: Layout, width: nat, height: nat)
      ensures Valid() && DrawableMesh()
      ensures this.layout == layout && vertices == [] && indices == []
      ensures windowWidth == width && windowHeight == height
      ensures OutputState() == Output(true, false, false)
    {
      this.layout := layout;
      vertices, indices := [], [];
      modelWidth, modelHeight := 0, 0;
      heightMap := [];
      windowWidth, windowHeight := width, height;
      renderTargetPresent, depthTargetPresent := true, true;
      targetBound, releasePending := false, false;
      depthWidth, depthHeight := width, height;
    }

    /**
     * Loads the two images, maps the depth image and builds the terrain mesh
     * from it. A failed stage or a null mapping returns early and keeps the
     * old mesh, except that Application2 has already cleared its vertex list.
     */
    method LoadAndPrepareRenderResource(load: TextureLoad)
      requires Readable(load) ==> WellMapped(load)
      modifies this`vertices, this`indices, this`modelWidth, this`modelHeight, this`heightMap
      ensures !Readable(load) ==>
        vertices == (if layout == HeightOnZ then [] else old(vertices)) && indices == old(indices) &&
        modelWidth == old(modelWidth) && modelHeight == old(modelHeight) && heightMap == old(heightMap)
      ensures Readable(load) ==>
        modelWidth == load.width && modelHeight == load.height &&
        IsDestrided(heightMap, load.pixels.value, load.width, load.height, load.rowPitch) &&
        IsHeightField(heightMap, load.width, load.height) &&
        IsGridMesh(vertices, layout, heightMap, load.width, load.height) &&
        indices == MeshIndices(load.width, load.height) &&
        DrawableMesh()
    {
      if layout == HeightOnZ {
        vertices := [];
      }
      if !load.Mapped? || load.pixels.None? {
        return;
      }
      var src := load.pixels.value;
      var w, h := load.width, load.height;
      var depth := CopyDepth(src, w, h, load.rowPitch);
      modelWidth, modelHeight := w, h;
      HeightFieldOf(depth, src, w, h, load.rowPitch);
      heightMap := depth;
      BuildMesh(depth, w, h);
    }

    /** A de-strided copy of a well-mapped image is a height field. */
    static lemma HeightFieldOf(depth: seq<Byte>, src: seq<Byte>, w: nat, h: nat, rowPitch: nat)
      requires 0 < w && 0 < h
      requires IsDestrided(depth, src, w, h, rowPitch)
      requires HasBrightPixel(src, w, h, rowPitch)
      ensures IsHeightField(depth, w, h)
    {
      MulMonotone(1, h, w);
      var px: nat, py: nat :| px < w && py < h && Slot(rowPitch, px, py) < |src| && src[Slot(rowPitch, px, py)] > 0;
      assert depth[Slot(w, px, py)] > 0;
    }

    /**
     * The mesh build of LoadAndPrepareRenderResource: clear both lists, then
     * one vertex per sample and six indices per interior cell, rows outer,
     * columns inner.
     */
    method BuildMesh(samples: seq<Byte>, w: nat, h: nat)
      requires IsHeightField(samples, w, h)
      modifies this`vertices, this`indices
      ensures IsGridMesh(vertices, layout, samples, w, h)
      ensures indices == MeshIndices(w, h)
      ensures DrawableMesh()
    {
      var max := MaxSample(samples);
      GridVerticesIsGridMesh(layout, samples, w, h);
      vertices := [];
      indices := [];
      var y := 0;
      while y < h
        invariant 0 <= y <= h
        invariant vertices == GridVertices(layout, samples, w, h, max, y)
        invariant indices == GridIndices(w, if y < h then y else h - 1)
      {
        PushRow(samples, w, h, max, y);
        y := y + 1;
      }
      MeshIndicesShape(w, h);
    }

    /** One pass of the column loop: the vertices of row `y` and, unless it is the last row, its cells. */
    method PushRow(samples: seq<Byte>, w: nat, h: nat, max: Byte, y: nat)
      requires Scaled(samples, w, h, max) && y < h
      requires vertices == GridVertices(layout, samples, w, h, max, y)
      requires indices == GridIndices(w, y)
      modifies this`vertices, this`indices
      ensures vertices == GridVertices(layout, samples, w, h, max, y + 1)
      ensures indices == GridIndices(w, if y + 1 < h then y + 1 else h - 1)
    {
      var vs, ix := vertices, indices;
      var x := 0;
      while x < w
        invariant 0 <= x <= w
        invariant vs == VerticesUpTo(layout, samples, w, h, max, x, y)
        invariant ix == IndicesUpTo(w, h, x, y)
      {
        vs, ix := VisitCell(samples, w, h, max, x, y, vs, ix);
        x := x + 1;
      }
      IndicesRowDone(w, h, y);
      assert vs == VerticesUpTo(layout, samples, w, h, max, w, y);
      vertices, indices := vs, ix;
    }

    /**
     * The body of the column loop at (x, y): push the vertex of the sample,
     * then, when (x, y) is the top-left corner of a cell, its six indices.
     */
    method VisitCell(samples: seq<Byte>, w: nat, h: nat, max: Byte, x: nat, y: nat, vs: seq<Vertex>, ix: seq<nat>)
      returns (vs': seq<Vertex>, ix': seq<nat>)
      requires Scaled(samples, w, h, max) && x < w && y < h
      requires vs == VerticesUpTo(layout, samples, w, h, max, x, y)
      requires ix == IndicesUpTo(w, h, x, y)
      ensures vs' == VerticesUpTo(layout, samples, w, h, max, x + 1, y)
      ensures ix' == IndicesUpTo(w, h, x + 1, y)
    {
      var a := Slot(w, x, y);
      VertexPush(layout, samples, w, h, max, y, x, vs);
      vs' := vs + [GridVertex(layout, w, h, max, x, y, samples[a])];
      IndicesPush(w, h, x, y, ix);
      ix' := ix;
      if x < w - 1 && y < h - 1 {
        ix' := ix + CellIndices(w, x, y);
      }
    }

    /**
     * The resize handler: unbind and flush, release the render-target view,
     * resize the swap chain's buffers, and only if that succeeded recreate the
     * view (whose success is not checked) and the depth buffer at the new
     * window size.
     */
    method OnWindowResized(resizeOk: bool, createOk: bool) returns (calls: seq<GpuCall>)
      modifies this`renderTargetPresent, this`targetBound, this`releasePending,
               this`depthTargetPresent, this`depthWidth, this`depthHeight
      ensures Valid()
      ensures renderTargetPresent <==> resizeOk && createOk
      ensures !targetBound && !releasePending
      ensures resizeOk ==> depthTargetPresent && depthWidth == windowWidth && depthHeight == windowHeight
      ensures !resizeOk ==> depthTargetPresent == old(depthTargetPresent) &&
                            depthWidth == old(depthWidth) && depthHeight == old(depthHeight)
      ensures |calls| == if resizeOk then 6 else 4
      ensures calls[..4] == [UnbindRenderTargets, Flush, ReleaseRenderTarget, ResizeBuffers(windowWidth, windowHeight, resizeOk)]
      ensures resizeOk ==> calls[4..] == [CreateRenderTarget(createOk), CreateDepthStencil(windowWidth, windowHeight)]
      ensures WellOrdered(old(OutputState()), calls)
      ensures After(old(OutputState()), calls) == OutputState()
      ensures DrawnIndices(calls) == 0
    {
      ResizeOrdered(OutputState(), windowWidth, windowHeight, resizeOk, createOk);
      releasePending, targetBound := releasePending || targetBound, false;
      releasePending := false;
      renderTargetPresent := false;
      calls := [UnbindRenderTargets, Flush, ReleaseRenderTarget, ResizeBuffers(windowWidth, windowHeight, resizeOk)];
      if !resizeOk {
        return;
      }
      renderTargetPresent := createOk;
      depthTargetPresent, depthWidth, depthHeight := true, windowWidth, windowHeight;
      calls := calls + [CreateRenderTarget(createOk), CreateDepthStencil(windowWidth, windowHeight)];
    }

    /** A new window size from the window procedure, then the resize handler. */
    method UpdateWindowSize(width: nat, height: nat, resizeOk: bool, createOk: bool) returns (calls: seq<GpuCall>)
      modifies this`windowWidth, this`windowHeight, this`renderTargetPresent, this`targetBound,
               this`releasePending, this`depthTargetPresent, this`depthWidth, this`depthHeight
      ensures Valid()
      ensures windowWidth == width && windowHeight == height
      ensures renderTargetPresent <==> resizeOk && createOk
      ensures !targetBound && !releasePending
      ensures resizeOk ==> depthTargetPresent && depthWidth == width && depthHeight == height
      ensures !resizeOk ==> depthTargetPresent == old(depthTargetPresent) &&
                            depthWidth == old(depthWidth) && depthHeight == old(depthHeight)
      ensures |calls| == if resizeOk then 6 else 4
      ensures calls[..4] == [UnbindRenderTargets, Flush, ReleaseRenderTarget, ResizeBuffers(width, height, resizeOk)]
      ensures resizeOk ==> calls[4..] == [CreateRenderTarget(createOk), CreateDepthStencil(width, height)]
      ensures WellOrdered(old(OutputState()), calls)
      ensures After(old(OutputState()), calls) == OutputState()
      ensures DrawnIndices(calls) == 0
    {
      windowWidth, windowHeight := width, height;
      calls := OnWindowResized(resizeOk, createOk);
    }

    /**
     * One frame: nothing at all without a render target; otherwise unbind,
     * clear the target and the depth buffer, bind both, draw the whole
     * terrain index list, draw the base plate (Application only), and
     * present. The depth buffer cleared and bound has the window's size.
     */
    method Render() returns (calls: seq<GpuCall>)
      requires Valid()
      modifies this`targetBound, this`releasePending
      ensures Valid()
      ensures calls == [] <==> !renderTargetPresent
      ensures renderTargetPresent ==>
        calls == [UnbindRenderTargets, ClearFrame, ClearDepth, BindRenderTarget, DrawIndexed(|indices|)] +
          (if layout == HeightOnY then [DrawIndexed(|BasePlateIndices|)] else []) + [Present]
      ensures renderTargetPresent ==>
        depthTargetPresent && depthWidth == windowWidth && depthHeight == windowHeight
      ensures renderTargetPresent ==> targetBound
      ensures DrawnIndices(calls) ==
        if !renderTargetPresent then 0
        else |indices| + (if layout == HeightOnY then |BasePlateIndices| else 0)
      ensures WellOrdered(old(OutputState()), calls)
      ensures After(old(OutputState()), calls) == OutputState()
    {
      if !renderTargetPresent {
        return [];
      }
      var draws := [DrawIndexed(|indices|)];
      if layout == HeightOnY {
        draws := draws + [DrawIndexed(|BasePlateIndices|)];
      }
      assert DrawnIndices(draws) == |indices| + (if layout == HeightOnY then |BasePlateIndices| else 0) by {
        Append(OutputState(), [DrawIndexed(|indices|)], DrawIndexed(|BasePlateIndices|));
      }
      FrameOrdered(OutputState(), draws);
      calls := [UnbindRenderTargets, ClearFrame, ClearDepth, BindRenderTarget] + draws + [Present];
      releasePending, targetBound := releasePending || targetBound, true;
    }
  }
}

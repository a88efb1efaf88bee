/**
 * The commands recordCommands puts into each swapchain image's command
 * buffer, and the Vulkan recording rules they are checked against: a
 * command buffer is begun once, a draw needs a render pass, a graphics
 * pipeline, a vertex buffer and an index buffer, and recording ends outside
 * the render pass.  Executing a trace against those rules yields the draw
 * calls it makes, with the buffers bound at the time of each draw.
 */
module CommandTrace {
  import opened Vk
  import opened Wrappers

  /** A mesh as the renderer sees it: its two buffers and its index count. */
  datatype Mesh = Mesh(vertexBuffer: Handle, indexBuffer: Handle, indexCount: u32)

  /** VkRect2D. */
  datatype Rect2D = Rect2D(offsetX: int, offsetY: int, extent: Extent2D)

  /** A recorded call on a command buffer, vkBeginCommandBuffer and vkEndCommandBuffer included. */
  datatype Command =
    | BeginCommandBuffer
    | BeginRenderPass(renderPass: Handle, framebuffer: Handle, renderArea: Rect2D, clearValueCount: nat)
    | BindPipeline(pipeline: Handle)
    | BindVertexBuffers(firstBinding: nat, buffers: seq<Handle>, offsets: seq<nat>)
    | BindIndexBuffer(buffer: Handle, offset: nat, indexType: IndexType)
    | DrawIndexed(indexCount: u32, instanceCount: nat, firstIndex: nat, vertexOffset: int, firstInstance: nat)
    | EndRenderPass
    | EndCommandBuffer

  // ---------------------------------------------------------------------
  // The trace recordCommands builds

  /** The three commands recorded for one mesh. */
  function MeshCommands(m: Mesh): seq<Command> {
    [BindVertexBuffers(0, [m.vertexBuffer], [0]),
     BindIndexBuffer(m.indexBuffer, 0, IndexTypeUint32),
     DrawIndexed(m.indexCount, 1, 0, 0, 0)]
  }

  /** The commands for every mesh, in list order, as the inner loop appends them. */
  function MeshListCommands(meshes: seq<Mesh>): seq<Command>
    decreases |meshes|
  {
    if meshes == [] then []
    else MeshListCommands(meshes[..|meshes| - 1]) + MeshCommands(meshes[|meshes| - 1])
  }

  /** The commands recorded before the meshes. */
  function TracePrologue(renderPass: Handle, framebuffer: Handle, extent: Extent2D, pipeline: Handle): seq<Command> {
    [BeginCommandBuffer, BeginRenderPass(renderPass, framebuffer, Rect2D(0, 0, extent), 1), BindPipeline(pipeline)]
  }

  /** The commands recorded after the meshes. */
  const TraceEpilogue: seq<Command> := [EndRenderPass, EndCommandBuffer]

  /** The complete contents of the command buffer of one swapchain image. */
  function RecordedTrace(renderPass: Handle, framebuffer: Handle, extent: Extent2D, pipeline: Handle, meshes: seq<Mesh>): seq<Command> {
    TracePrologue(renderPass, framebuffer, extent, pipeline) + MeshListCommands(meshes) + TraceEpilogue
  }

  /**
   * Mesh j's commands sit at positions 3j to 3j+2 of the mesh part of the
   * trace, in the order bind vertex buffer, bind index buffer, draw.
   */
  lemma {:induction false} MeshListCommandsAt(meshes: seq<Mesh>)
    ensures |MeshListCommands(meshes)| == 3 * |meshes|
    ensures forall j :: 0 <= j < |meshes| ==> MeshListCommands(meshes)[3 * j..3 * j + 3] == MeshCommands(meshes[j])
    decreases |meshes|
  {
    if meshes != [] {
      var n := |meshes|;
      var init := meshes[..n - 1];
      MeshListCommandsAt(init);
      var t := MeshListCommands(meshes);
      assert t == MeshListCommands(init) + MeshCommands(meshes[n - 1]);
      forall j | 0 <= j < n
        ensures t[3 * j..3 * j + 3] == MeshCommands(meshes[j])
      {
        if j < n - 1 {
          assert t[3 * j..3 * j + 3] == MeshListCommands(init)[3 * j..3 * j + 3];
          assert init[j] == meshes[j];
        } else {
          assert t[3 * j..3 * j + 3] == MeshCommands(meshes[n - 1]);
        }
      }
    }
  }

  // ---------------------------------------------------------------------
  // Recording rules

  /** Lifecycle of a command buffer. */
  datatype Phase = Initial | Recording | Executable

  /** What the rules track while a command buffer is recorded. */
  datatype RecState = RecState(
    phase: Phase,
    inRenderPass: bool,
    pipeline: Option<Handle>,
    vertexBuffer: Option<Handle>,   // binding 0
    indexBuffer: Option<Handle>)

  const InitialState: RecState := RecState(Initial, false, None, None, None)

  /** One draw as the GPU will perform it. */
  datatype DrawCall = DrawCall(pipeline: Handle, vertexBuffer: Handle, indexBuffer: Handle, indexCount: u32, instanceCount: nat)

  /** The state after one command, or None when the command breaks a rule. */
  function Step(s: RecState, c: Command): Option<RecState> {
    match c
    case BeginCommandBuffer =>
      if s.phase == Initial then Some(RecState(Recording, false, None, None, None)) else None
    case BeginRenderPass(_, _, _, _) =>
      if s.phase == Recording && !s.inRenderPass then Some(s.(inRenderPass := true)) else None
    case BindPipeline(p) =>
      if s.phase == Recording then Some(s.(pipeline := Some(p))) else None
    case BindVertexBuffers(first, buffers, offsets) =>
      if s.phase == Recording && 0 < |buffers| == |offsets| then
        Some(if first == 0 then s.(vertexBuffer := Some(buffers[0])) else s)
      else None
    case BindIndexBuffer(buffer, _, _) =>
      if s.phase == Recording then Some(s.(indexBuffer := Some(buffer))) else None
    case DrawIndexed(_, _, _, _, _) =>
      if s.phase == Recording && s.inRenderPass && s.pipeline.Some? && s.vertexBuffer.Some? && s.indexBuffer.Some?
      then Some(s) else None
    case EndRenderPass =>
      if s.phase == Recording && s.inRenderPass then Some(s.(inRenderPass := false)) else None
    case EndCommandBuffer =>
      if s.phase == Recording && !s.inRenderPass then Some(s.(phase := Executable)) else None
  }

  /** The draw a command makes in state s, if it is a draw the rules allow. */
  function DrawsOf(s: RecState, c: Command): seq<DrawCall> {
    if c.DrawIndexed? && s.pipeline.Some? && s.vertexBuffer.Some? && s.indexBuffer.Some? then
      [DrawCall(s.pipeline.value, s.vertexBuffer.value, s.indexBuffer.value, c.indexCount, c.instanceCount)]
    else []
  }

  /** The state reached and the draws made by a trace that keeps the rules. */
  datatype Run = Run(state: RecState, draws: seq<DrawCall>)

  /** One more command after a run; None once a rule has been broken. */
  function Then(r: Option<Run>, c: Command): Option<Run> {
    if r.None? then None
    else
      match Step(r.value.state, c)
      case None => None
      case Some(s) => Some(Run(s, r.value.draws + DrawsOf(r.value.state, c)))
  }

  /** The commands of t, in order, after run r, as they are appended to a command buffer. */
  function ExecuteFrom(r: Option<Run>, t: seq<Command>): Option<Run>
    decreases |t|
  {
    if t == [] then r else Then(ExecuteFrom(r, t[..|t| - 1]), t[|t| - 1])
  }

  /** Runs trace t from state s. */
  function Execute(s: RecState, t: seq<Command>): Option<Run> {
    ExecuteFrom(Some(Run(s, [])), t)
  }

  /** Running a concatenation runs the first part, then the second from where it ended. */
  lemma {:induction false} ExecuteFromAppend(r: Option<Run>, a: seq<Command>, b: seq<Command>)
    ensures ExecuteFrom(r, a + b) == ExecuteFrom(ExecuteFrom(r, a), b)
    decreases |b|
  {
    if b == [] {
      assert a + b == a;
    } else {
      var init := b[..|b| - 1];
      ExecuteFromAppend(r, a, init);
      assert (a + b)[..|a + b| - 1] == a + init;
      assert (a + b)[|a + b| - 1] == b[|b| - 1];
    }
  }

  /** A broken rule is never repaired by later commands. */
  lemma {:induction false} BrokenStaysBroken(t: seq<Command>)
    ensures ExecuteFrom(None, t) == None
    decreases |t|
  {
    if t != [] {
      BrokenStaysBroken(t[..|t| - 1]);
    }
  }

  /** The draws recordCommands asks for: one per mesh, in list order. */
  function MeshDraws(pipeline: Handle, meshes: seq<Mesh>): (draws: seq<DrawCall>)
    ensures |draws| == |meshes|
    ensures forall j :: 0 <= j < |meshes| ==>
      draws[j] == DrawCall(pipeline, meshes[j].vertexBuffer, meshes[j].indexBuffer, meshes[j].indexCount, 1)
  {
    seq(|meshes|, j requires 0 <= j < |meshes| =>
      DrawCall(pipeline, meshes[j].vertexBuffer, meshes[j].indexBuffer, meshes[j].indexCount, 1))
  }

  /**
   * Inside a render pass with a pipeline bound, the commands of one mesh
   * keep the rules, bind its two buffers and draw it once with them.
   */
  lemma MeshCommandsExecute(s: RecState, draws: seq<DrawCall>, m: Mesh)
    requires s.phase == Recording && s.inRenderPass && s.pipeline.Some?
    ensures ExecuteFrom(Some(Run(s, draws)), MeshCommands(m)) ==
      Some(Run(s.(vertexBuffer := Some(m.vertexBuffer), indexBuffer := Some(m.indexBuffer)),
               draws + [DrawCall(s.pipeline.value, m.vertexBuffer, m.indexBuffer, m.indexCount, 1)]))
  {
    var t := MeshCommands(m);
    var r0 := Some(Run(s, draws));
    var s1 := s.(vertexBuffer := Some(m.vertexBuffer));
    var s2 := s1.(indexBuffer := Some(m.indexBuffer));
    assert t[..0] == [] && t[..1][..0] == [];
    assert t[..2][..1] == t[..1];
    assert ExecuteFrom(r0, t[..1]) == Then(r0, t[0]) == Some(Run(s1, draws + []));
    assert draws + [] == draws;
    assert ExecuteFrom(r0, t[..2]) == Then(Some(Run(s1, draws)), t[1]) == Some(Run(s2, draws + []));
    assert t[..3] == t;
  }

  /**
   * Inside a render pass with a pipeline bound, the mesh part of the trace
   * keeps the rules and draws every mesh in order with its own buffers.
   */
  lemma {:induction false} MeshListExecute(s: RecState, draws: seq<DrawCall>, meshes: seq<Mesh>)
    requires s.phase == Recording && s.inRenderPass && s.pipeline.Some?
    ensures var r := ExecuteFrom(Some(Run(s, draws)), MeshListCommands(meshes));
            r.Some? &&
            r.value.state.phase == Recording && r.value.state.inRenderPass && r.value.state.pipeline == s.pipeline &&
            r.value.draws == draws + MeshDraws(s.pipeline.value, meshes)
    decreases |meshes|
  {
    if meshes == [] {
      assert MeshDraws(s.pipeline.value, meshes) == [];
      assert draws + [] == draws;
    } else {
      var n := |meshes|;
      var init := meshes[..n - 1];
      var last := meshes[n - 1];
      MeshListExecute(s, draws, init);
      var mid := ExecuteFrom(Some(Run(s, draws)), MeshListCommands(init)).value;
      MeshCommandsExecute(mid.state, mid.draws, last);
      ExecuteFromAppend(Some(Run(s, draws)), MeshListCommands(init), MeshCommands(last));
      var d := DrawCall(s.pipeline.value, last.vertexBuffer, last.indexBuffer, last.indexCount, 1);
      assert MeshDraws(s.pipeline.value, meshes) == MeshDraws(s.pipeline.value, init) + [d];
      assert draws + MeshDraws(s.pipeline.value, init) + [d] == draws + MeshDraws(s.pipeline.value, meshes);
    }
  }

  /** The prologue opens the buffer, starts the render pass and binds the pipeline. */
  lemma PrologueExecute(renderPass: Handle, framebuffer: Handle, extent: Extent2D, pipeline: Handle)
    ensures Execute(InitialState, TracePrologue(renderPass, framebuffer, extent, pipeline)) ==
      Some(Run(RecState(Recording, true, Some(pipeline), None, None), []))
  {
    var t := TracePrologue(renderPass, framebuffer, extent, pipeline);
    var r0 := Some(Run(InitialState, []));
    var s1 := RecState(Recording, false, None, None, None);
    var s2 := s1.(inRenderPass := true);
    var s3 := s2.(pipeline := Some(pipeline));
    assert t[..0] == [] && t[..1][..0] == [];
    assert t[..2][..1] == t[..1];
    assert t[..3][..2] == t[..2];
    assert t[..1][0] == t[0] == BeginCommandBuffer;
    assert DrawsOf(InitialState, t[0]) == [];
    assert [] + DrawsOf(InitialState, t[0]) == [];
    assert ExecuteFrom(r0, t[..1]) == Then(r0, t[0]) == Some(Run(s1, []));
    assert ExecuteFrom(r0, t[..2]) == Some(Run(s2, []));
    assert ExecuteFrom(r0, t[..3]) == Some(Run(s3, []));
    assert t[..3] == t;
  }

  /** The epilogue ends the render pass and makes the buffer executable. */
  lemma EpilogueExecute(s: RecState, draws: seq<DrawCall>)
    requires s.phase == Recording && s.inRenderPass
    ensures ExecuteFrom(Some(Run(s, draws)), TraceEpilogue) ==
      Some(Run(s.(inRenderPass := false, phase := Executable), draws))
  {
    var t := TraceEpilogue;
    var r0 := Some(Run(s, draws));
    var s1 := s.(inRenderPass := false);
    assert t[..0] == [] && t[..1][..0] == [];
    assert t[..2][..1] == t[..1];
    assert draws + [] == draws;
    assert ExecuteFrom(r0, t[..1]) == Some(Run(s1, draws));
    assert t[..2] == t;
  }

  /**
   * Every command buffer recordCommands fills keeps the Vulkan recording
   * rules from a fresh buffer to the executable state, and draws exactly
   * the meshes of the mesh list, in order, each with its own vertex and
   * index buffer and one instance.
   */
  lemma RecordedTraceValid(renderPass: Handle, framebuffer: Handle, extent: Extent2D, pipeline: Handle, meshes: seq<Mesh>)
    ensures var r := Execute(InitialState, RecordedTrace(renderPass, framebuffer, extent, pipeline, meshes));
            r.Some? && r.value.state.phase == Executable && !r.value.state.inRenderPass &&
            r.value.draws == MeshDraws(pipeline, meshes)
  {
    var pro := TracePrologue(renderPass, framebuffer, extent, pipeline);
    var body := MeshListCommands(meshes);
    var r0 := Some(Run(InitialState, []));
    var s3 := RecState(Recording, true, Some(pipeline), None, None);
    PrologueExecute(renderPass, framebuffer, extent, pipeline);
    MeshListExecute(s3, [], meshes);
    var mid := ExecuteFrom(Some(Run(s3, [])), body).value;
    EpilogueExecute(mid.state, mid.draws);
    ExecuteFromAppend(r0, pro, body);
    ExecuteFromAppend(r0, pro + body, TraceEpilogue);
    assert [] + MeshDraws(pipeline, meshes) == MeshDraws(pipeline, meshes);
  }
}

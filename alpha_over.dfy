/**
  The "alpha over" blend node: composites its blend input over its base input.

  `Value` is the accelerated path (in-place compositing on the GPU of the worker's
  current render instance), `Code` the kernel-generation path, `Release` the
  node's (empty) resource release, and `Id` its stable type identity.
*/
module AlphaOver {
  import opened Wrappers
  import opened Gpu

  /** The outputs a caller may request; the node itself produces only the texture output. */
  datatype Output = TextureOutput | OtherOutput(name: string)

  /** The node's inputs, in the order `Value` resolves them. */
  datatype Port = BaseInput | BlendInput

  /** What `Value` hands back: nothing, or a texture handle. */
  datatype NodeValue = NoValue | Texture(handle: Handle)

  /** A kernel descriptor: a kernel name and its (opaque) source text. */
  datatype NodeCode = NodeCode(name: string, source: string)

  /** The per-pixel kernel text emitted for the texture output; its contents are not interpreted here. */
  const AlphaOverKernel: string :=
    "void AlphaOver(const pixel *base_in, const pixel *blend_in, pixel *tex_out) {"
    + "  int i = get_global_id(0);"
    + "  tex_out[i].r = base_in.r - blend_in.a + blend_in.r;"
    + "  tex_out[i].g = base_in.g - blend_in.a + blend_in.g;"
    + "  tex_out[i].b = base_in.b - blend_in.a + blend_in.b;"
    + "  tex_out[i].a = base_in.a - blend_in.a + blend_in.a;"
    + "}"

  const OliveNamespace := "org.olivevideoeditor.Olive."

  /** The stable identity under which this node type is serialised. */
  function Id(): (id: string)
    ensures |id| > |OliveNamespace| && id[..|OliveNamespace|] == OliveNamespace
  {
    OliveNamespace + "alphaoverblend"
  }

  /**
    The kernel form of `output`. `inherited` is what the generic node's `Code`
    gives for that output; it is consulted only for outputs this node does not produce.
  */
  function Code(output: Output, inherited: NodeCode): (c: NodeCode)
    ensures output == TextureOutput ==> c.name == "AlphaOver" && c.source == AlphaOverKernel
    ensures output != TextureOutput ==> c == inherited
  {
    if output == TextureOutput then NodeCode("AlphaOver", AlphaOverKernel) else inherited
  }

  /** The kernel for the texture output depends on nothing but the output requested. */
  lemma CodeIndependentOfInherited(a: NodeCode, b: NodeCode)
    ensures Code(TextureOutput, a) == Code(TextureOutput, b)
  {
  }

  /** The branches of `Value`, in the order the source tests them. */
  datatype Branch =
    | NoRenderer
    | NotProduced
    | BothAbsent
    | OnlyBlend(blend: Handle)
    | OnlyBase(base: Handle)
    | Composite(base: Handle, blend: Handle)

  /** Which branch `Value` takes. `base` and `blend` are what the inputs resolve to, when asked. */
  function Decide(hasRenderer: bool, output: Output, base: Option<Handle>, blend: Option<Handle>): (b: Branch)
    ensures b.NoRenderer? <==> !hasRenderer
    ensures b.NotProduced? <==> hasRenderer && output != TextureOutput
    ensures b.Composite? <==> hasRenderer && output == TextureOutput && base.Some? && blend.Some?
    ensures b.BothAbsent? ==> base.None? && blend.None?
    ensures b.OnlyBlend? ==> base.None? && blend == Some(b.blend)
    ensures b.OnlyBase? ==> base == Some(b.base) && blend.None?
    ensures b.Composite? ==> base == Some(b.base) && blend == Some(b.blend)
  {
    if !hasRenderer then NoRenderer
    else if output != TextureOutput then NotProduced
    else if base.None? && blend.None? then BothAbsent
    else if base.None? then OnlyBlend(blend.value)
    else if blend.None? then OnlyBase(base.value)
    else Composite(base.value, blend.value)
  }

  /** The value returned on each branch. */
  function Result(b: Branch): NodeValue {
    match b
    case NoRenderer => NoValue
    case NotProduced => NoValue
    case BothAbsent => NoValue
    case OnlyBlend(t) => Texture(t)
    case OnlyBase(t) => Texture(t)
    case Composite(base, _) => Texture(base)
  }

  /** The inputs resolved on each branch. */
  function Requested(b: Branch): seq<Port> {
    if b.NoRenderer? || b.NotProduced? then [] else [BaseInput, BlendInput]
  }

  /** The GPU calls of the compositing branch, in the order they are issued. */
  function CompositeOps(base: Handle, blend: Handle): (ops: seq<Op>)
    ensures |ops| == 8 && ops[4] == Op.Blit
    ensures ops[0] == Op.AttachBuffer(base) && ops[|ops| - 1] == Op.DetachBuffer
    ensures forall op :: op in ops && (op.BindTexture? || op.ReleaseTexture?) ==> op.texture == blend
  {
    [ Op.AttachBuffer(base), Op.BindBuffer, Op.BindTexture(blend), Op.SetBlendFunc(OverFunc),
      Op.Blit, Op.ReleaseTexture(blend), Op.ReleaseBuffer, Op.DetachBuffer ]
  }

  /** The GPU calls issued on each branch. */
  function Plan(b: Branch): seq<Op> {
    if b.Composite? then CompositeOps(b.base, b.blend) else []
  }

  /**
    The value `Value` returns: the absence and identity laws of compositing.
  */
  function Evaluate(hasRenderer: bool, output: Output, base: Option<Handle>, blend: Option<Handle>): (r: NodeValue)
    // without a render instance, or for an output this node does not produce, there is no value
    ensures !hasRenderer || output != TextureOutput ==> r == NoValue
    // absence: nothing composited with nothing is nothing
    ensures base.None? && blend.None? ==> r == NoValue
    // identity: a present texture composited with an absent one is returned unchanged
    ensures hasRenderer && output == TextureOutput && base.None? && blend.Some? ==> r == Texture(blend.value)
    ensures hasRenderer && output == TextureOutput && base.Some? ==> r == Texture(base.value)
    // no handle is invented
    ensures r.Texture? ==> Some(r.handle) == base || Some(r.handle) == blend
    // a value is produced exactly when there is something to produce
    ensures r.Texture? <==> hasRenderer && output == TextureOutput && (base.Some? || blend.Some?)
  {
    Result(Decide(hasRenderer, output, base, blend))
  }

  /** The GPU is touched only when a render instance exists, the texture output is asked for and both inputs are present. */
  lemma GpuUsedOnlyToComposite(hasRenderer: bool, output: Output, base: Option<Handle>, blend: Option<Handle>)
    ensures Plan(Decide(hasRenderer, output, base, blend)) != []
        <==> hasRenderer && output == TextureOutput && base.Some? && blend.Some?
  {
  }

  /** The inputs are resolved only when a render instance exists and the texture output is asked for. */
  lemma InputsResolvedOnlyForTexture(hasRenderer: bool, output: Output, base: Option<Handle>, blend: Option<Handle>)
    ensures Requested(Decide(hasRenderer, output, base, blend)) != []
        <==> hasRenderer && output == TextureOutput
  {
  }

  /** The three releases of the compositing calls close, innermost first, what its three setup calls opened. */
  lemma ReleasesNested(blend: Handle)
    ensures Nested([Op.ReleaseTexture(blend), Op.ReleaseBuffer, Op.DetachBuffer],
                   [Attachment, BufferBinding, TextureBinding])
  {
    var a, b, c := Attachment, BufferBinding, TextureBinding;
    var tail := [Op.ReleaseTexture(blend), Op.ReleaseBuffer, Op.DetachBuffer];
    assert Nested(tail[2..], [a]) by { assert tail[2..][1..] == []; assert [a][..0] == []; }
    assert Nested(tail[1..], [a, b]) by { assert tail[1..][1..] == tail[2..]; assert [a, b][..1] == [a]; }
    assert [a, b, c][..2] == [a, b];
  }

  /** The compositing calls form a properly nested bracket: attach, bind, bind, then release in reverse order. */
  lemma CompositeIsNested(base: Handle, blend: Handle)
    ensures Nested(CompositeOps(base, blend), [])
  {
    var a, b, c := Attachment, BufferBinding, TextureBinding;
    var tail := [Op.ReleaseTexture(blend), Op.ReleaseBuffer, Op.DetachBuffer];
    ReleasesNested(blend);
    var mid := [Op.SetBlendFunc(OverFunc), Op.Blit] + tail;
    assert Nested(mid, [a, b, c]) by {
      assert mid[1..][1..] == tail;
    }
    var ops := CompositeOps(base, blend);
    assert ops == [Op.AttachBuffer(base), Op.BindBuffer, Op.BindTexture(blend)] + mid;
    assert Nested(ops[2..], [a, b]) by { assert ops[2..][1..] == mid; assert [a, b] + [c] == [a, b, c]; }
    assert Nested(ops[1..], [a]) by { assert ops[1..][1..] == ops[2..]; assert [a] + [b] == [a, b]; }
    assert [] + [a] == [a];
  }

  /** The state once the draw is set up (after the first four calls) and once every call is issued. */
  lemma {:induction false} CompositeStates(s: GpuState, base: Handle, blend: Handle)
    ensures var ops := CompositeOps(base, blend);
      && Replay(s, ops[..4]) == s.(attached := Some(base), bufferBound := true,
                                   boundTexture := Some(blend), blendFunc := OverFunc)
      && Replay(s, ops) == s.(attached := None, bufferBound := false,
                              boundTexture := None, blendFunc := OverFunc)
  {
    var ops := CompositeOps(base, blend);
    var s1 := Replay(s, ops[..1]);
    assert ops[..1][..0] == [];
    var s2 := Replay(s, ops[..2]);
    assert ops[..2][..1] == ops[..1];
    var s3 := Replay(s, ops[..3]);
    assert ops[..3][..2] == ops[..2];
    var s4 := Replay(s, ops[..4]);
    assert ops[..4][..3] == ops[..3];
    var s5 := Replay(s, ops[..5]);
    assert ops[..5][..4] == ops[..4];
    var s6 := Replay(s, ops[..6]);
    assert ops[..6][..5] == ops[..5];
    var s7 := Replay(s, ops[..7]);
    assert ops[..7][..6] == ops[..6];
    assert ops[..7] == ops[..|ops| - 1];
  }

  /** Issuing `ops` from `s` draws exactly once, with `blend` bound over `base` and the "over" blend function set. */
  ghost predicate DrawsOnceOver(s: GpuState, ops: seq<Op>, base: Handle, blend: Handle) {
    && (exists i :: 0 <= i < |ops| && ops[i] == Op.Blit)
    && forall i :: 0 <= i < |ops| && ops[i] == Op.Blit ==>
         && (forall j :: 0 <= j < |ops| && j != i ==> ops[j] != Op.Blit)
         && var m := Replay(s, ops[..i]);
            m.attached == Some(base) && m.bufferBound && m.boundTexture == Some(blend) && m.blendFunc == OverFunc
  }

  /** The compositing calls draw once, after every bind and the blend function, and before any release. */
  lemma CompositeDrawsOnceOver(s: GpuState, base: Handle, blend: Handle)
    ensures DrawsOnceOver(s, CompositeOps(base, blend), base, blend)
  {
    var ops := CompositeOps(base, blend);
    CompositeStates(s, base, blend);
    assert ops[4] == Op.Blit;
    forall i | 0 <= i < |ops| && ops[i] == Op.Blit
      ensures i == 4
    {
    }
  }

  /** Compositing leaves the instance idle whatever it found; found idle, it differs only in the blend function. */
  lemma CompositeRestoresIdle(s: GpuState, base: Handle, blend: Handle)
    ensures Replay(s, CompositeOps(base, blend)).Idle()
    ensures Replay(s, CompositeOps(base, blend)).blendFunc == OverFunc
    ensures s.Idle() ==> Replay(s, CompositeOps(base, blend)) == s.(blendFunc := OverFunc)
  {
    CompositeStates(s, base, blend);
  }

  /** The compositing branch's calls: draw `blend` over `base` into `base` itself. */
  method CompositeInPlace(renderer: RenderInstance, base: Handle, blend: Handle)
    modifies renderer
    ensures renderer.trace == old(renderer.trace) + CompositeOps(base, blend)
    ensures renderer.State() == Replay(old(renderer.State()), CompositeOps(base, blend))
  {
    ghost var s0, t0 := renderer.State(), renderer.trace;
    ghost var ops := CompositeOps(base, blend);
    renderer.AttachBuffer(base);
    renderer.BindBuffer();
    renderer.BindTexture(blend);
    renderer.SetBlendFunc(OverFunc);
    assert renderer.trace == t0 + ops[..4];
    renderer.Blit();
    renderer.ReleaseTexture(blend);
    renderer.ReleaseBuffer();
    renderer.DetachBuffer();
    assert renderer.State() == s0.(attached := None, bufferBound := false,
                                   boundTexture := None, blendFunc := OverFunc);
    assert renderer.trace == t0 + ops;
    CompositeStates(s0, base, blend);
  }

  /**
    The node's accelerated evaluation of `output`. `renderer` is the worker's current
    render instance (`null` when there is none); `base` and `blend` are what the two
    inputs resolve to over the requested window; `requested` lists the inputs resolved.
  */
  method Value(renderer: RenderInstance?, output: Output, base: Option<Handle>, blend: Option<Handle>)
    returns (r: NodeValue, ghost requested: seq<Port>)
    modifies renderer
    ensures r == Evaluate(renderer != null, output, base, blend)
    ensures requested == Requested(Decide(renderer != null, output, base, blend))
    ensures renderer != null ==>
      var ops := Plan(Decide(true, output, base, blend));
      && renderer.trace == old(renderer.trace) + ops
      && renderer.State() == Replay(old(renderer.State()), ops)
    // the compositing branch leaves nothing attached or bound, whatever it found
    ensures renderer != null && Decide(true, output, base, blend).Composite? ==>
      renderer.State().Idle() && renderer.blendFunc == OverFunc
    // state restoration, on every branch
    ensures renderer != null && old(renderer.State()).Idle() ==> renderer.State().Idle()
  {
    if renderer == null {
      return NoValue, [];
    }
    ghost var s0 := renderer.State();
    if output == TextureOutput {
      requested := [BaseInput, BlendInput];
      if base.None? && blend.None? {
        return NoValue, requested;
      } else if base.None? {
        return Texture(blend.value), requested;
      } else if blend.None? {
        return Texture(base.value), requested;
      }
      CompositeInPlace(renderer, base.value, blend.value);
      CompositeRestoresIdle(s0, base.value, blend.value);
      return Texture(base.value), requested;
    }
    return NoValue, [];
  }

  /** The node holds no GPU resources of its own, so releasing them changes nothing. */
  method Release(renderer: RenderInstance?)
    ensures renderer != null ==> renderer.State() == old(renderer.State()) && renderer.trace == old(renderer.trace)
  {
  }
}

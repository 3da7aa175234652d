/**
  The piece of a worker's render instance that a compositing node touches: the
  reusable framebuffer (attached to a target texture, bound or not), the texture
  bound as the draw source, and the context's blend function.

  The GPU calls themselves are foreign; each is modelled only by the state change
  its name implies (`Step`) and by an entry in a ghost call trace.
*/
module Gpu {
  import opened Wrappers

  /** Identity of a GPU-resident texture. A missing texture is `None`, never a handle. */
  type Handle = nat

  /** The blend factors that this model names (a subset of OpenGL's). */
  datatype BlendFactor = Zero | One | SrcAlpha | OneMinusSrcAlpha

  /** The `(source factor, destination factor)` pair set by `glBlendFunc`. */
  datatype BlendFunc = BlendFunc(src: BlendFactor, dst: BlendFactor)

  /** `glBlendFunc(GL_ONE, GL_ONE_MINUS_SRC_ALPHA)`: the "over" operator. */
  const OverFunc := BlendFunc(One, OneMinusSrcAlpha)

  /** One call into the GPU context, as it appears in the call trace. */
  datatype Op =
    | AttachBuffer(target: Handle)
    | BindBuffer
    | BindTexture(texture: Handle)
    | SetBlendFunc(func: BlendFunc)
    | Blit
    | ReleaseTexture(texture: Handle)
    | ReleaseBuffer
    | DetachBuffer

  /** The abstract state of a render instance. */
  datatype GpuState = GpuState(
    attached: Option<Handle>,
    bufferBound: bool,
    boundTexture: Option<Handle>,
    blendFunc: BlendFunc)
  {
    /** The baseline between node calls: nothing attached, nothing bound. */
    predicate Idle() {
      attached.None? && !bufferBound && boundTexture.None?
    }
  }

  /** The effect of one call: each primitive changes exactly the piece of state it names. */
  function Step(s: GpuState, op: Op): (r: GpuState)
    // a call takes, or gives back, exactly its own resource
    ensures Acquires(op).Some? ==> Holds(r, Acquires(op).value)
    ensures Releases(op).Some? ==> !Holds(r, Releases(op).value)
    // and touches no other piece of state
    ensures op.AttachBuffer? || op.DetachBuffer? || r.attached == s.attached
    ensures op.BindBuffer? || op.ReleaseBuffer? || r.bufferBound == s.bufferBound
    ensures op.BindTexture? || op.ReleaseTexture? || r.boundTexture == s.boundTexture
    ensures op.SetBlendFunc? || r.blendFunc == s.blendFunc
    ensures op.Blit? ==> r == s
  {
    match op
    case AttachBuffer(t) => s.(attached := Some(t))
    case BindBuffer => s.(bufferBound := true)
    case BindTexture(t) => s.(boundTexture := Some(t))
    case SetBlendFunc(f) => s.(blendFunc := f)
    case Blit => s
    case ReleaseTexture(_) => s.(boundTexture := None)
    case ReleaseBuffer => s.(bufferBound := false)
    case DetachBuffer => s.(attached := None)
  }

  /** The state reached by issuing `ops` in order, starting from `s`. */
  function Replay(s: GpuState, ops: seq<Op>): GpuState
    decreases |ops|
  {
    if ops == [] then s else Step(Replay(s, ops[..|ops| - 1]), ops[|ops| - 1])
  }

  /** Issuing `a` then `b` is issuing `a + b`. */
  lemma {:induction false} ReplayAppend(s: GpuState, a: seq<Op>, b: seq<Op>)
    ensures Replay(s, a + b) == Replay(Replay(s, a), b)
    decreases |b|
  {
    if b == [] {
      assert a + b == a;
    } else {
      var n := |b| - 1;
      assert (a + b)[..|a + b| - 1] == a + b[..n];
      assert (a + b)[|a + b| - 1] == b[n];
      ReplayAppend(s, a, b[..n]);
    }
  }

  /** The three things a node may hold on a render instance. */
  datatype Resource = Attachment | BufferBinding | TextureBinding

  /** Whether `s` holds resource `r`. */
  predicate Holds(s: GpuState, r: Resource) {
    match r
    case Attachment => s.attached.Some?
    case BufferBinding => s.bufferBound
    case TextureBinding => s.boundTexture.Some?
  }

  /** The resource that `op` takes, if any. */
  function Acquires(op: Op): Option<Resource> {
    match op
    case AttachBuffer(_) => Some(Attachment)
    case BindBuffer => Some(BufferBinding)
    case BindTexture(_) => Some(TextureBinding)
    case _ => None
  }

  /** The resource that `op` gives back, if any. */
  function Releases(op: Op): Option<Resource> {
    match op
    case ReleaseTexture(_) => Some(TextureBinding)
    case ReleaseBuffer => Some(BufferBinding)
    case DetachBuffer => Some(Attachment)
    case _ => None
  }

  /**
    `ops`, issued while the resources in `held` are taken (innermost last), is a
    properly nested bracket: it takes a resource only when it is not already held,
    gives back only the innermost held one, and ends with nothing held. Resources
    are compared by kind: which texture a release names is not checked here (the
    compositing calls fix it, see `AlphaOver.CompositeOps`).
  */
  predicate Nested(ops: seq<Op>, held: seq<Resource>)
    decreases |ops|
  {
    if ops == [] then held == []
    else
      var op := ops[0];
      if Acquires(op).Some? then
        Acquires(op).value !in held && Nested(ops[1..], held + [Acquires(op).value])
      else if Releases(op).Some? then
        held != [] && held[|held| - 1] == Releases(op).value && Nested(ops[1..], held[..|held| - 1])
      else
        Nested(ops[1..], held)
  }

  ghost predicate Distinct(held: seq<Resource>) {
    forall i, j :: 0 <= i < j < |held| ==> held[i] != held[j]
  }

  /** The state holds exactly the resources listed in `held`. */
  ghost predicate Reflects(s: GpuState, held: seq<Resource>) {
    forall r :: Holds(s, r) <==> r in held
  }

  /** Replaying from the front: one call, then the rest. */
  lemma {:induction false} ReplayFront(s: GpuState, ops: seq<Op>)
    requires ops != []
    ensures Replay(s, ops) == Replay(Step(s, ops[0]), ops[1..])
  {
    assert ops == [ops[0]] + ops[1..];
    ReplayAppend(s, [ops[0]], ops[1..]);
    assert [ops[0]][..0] == [];
  }

  /**
    A properly nested bracket leaves the instance with nothing attached and nothing bound:
    the general principle behind the compositing branch, which `AlphaOver.CompositeStates`
    computes call by call for its eight calls.
  */
  lemma {:induction false} NestedEndsIdle(s: GpuState, ops: seq<Op>, held: seq<Resource>)
    requires Reflects(s, held) && Distinct(held) && Nested(ops, held)
    ensures Replay(s, ops).Idle()
    decreases |ops|
  {
    if ops == [] {
      assert Replay(s, ops) == s;
      assert !Holds(s, Attachment) && !Holds(s, BufferBinding) && !Holds(s, TextureBinding);
    } else {
      var op := ops[0];
      var s' := Step(s, op);
      ReplayFront(s, ops);
      if Acquires(op).Some? {
        var r := Acquires(op).value;
        var held' := held + [r];
        assert forall x :: x in held' <==> x in held || x == r;
        NestedEndsIdle(s', ops[1..], held');
      } else if Releases(op).Some? {
        var r := Releases(op).value;
        var held' := held[..|held| - 1];
        assert held == held' + [r];
        assert r !in held';
        assert forall x :: x in held <==> x in held' || x == r;
        NestedEndsIdle(s', ops[1..], held');
      } else {
        NestedEndsIdle(s', ops[1..], held);
      }
    }
  }

  /** Started from the baseline, a properly nested bracket returns to the baseline. */
  lemma IdleBracketStaysIdle(s: GpuState, ops: seq<Op>)
    requires s.Idle() && Nested(ops, [])
    ensures Replay(s, ops).Idle()
  {
    NestedEndsIdle(s, ops, []);
  }

  /**
    A worker's render instance. The fields are the GPU state that compositing
    touches; `trace` records every call issued on it, oldest first.
  */
  class RenderInstance {
    var attached: Option<Handle>
    var bufferBound: bool
    var boundTexture: Option<Handle>
    var blendFunc: BlendFunc
    ghost var trace: seq<Op>

    function State(): GpuState
      reads this
    {
      GpuState(attached, bufferBound, boundTexture, blendFunc)
    }

    /** The framebuffer's `Attach(texture)`: render into `target`. */
    method AttachBuffer(target: Handle)
      modifies this
      ensures State() == Step(old(State()), Op.AttachBuffer(target))
      ensures trace == old(trace) + [Op.AttachBuffer(target)]
    {
      attached := Some(target);
      trace := trace + [Op.AttachBuffer(target)];
    }

    /** The framebuffer's `Bind()`: make it the active render target. */
    method BindBuffer()
      modifies this
      ensures State() == Step(old(State()), Op.BindBuffer)
      ensures trace == old(trace) + [Op.BindBuffer]
    {
      bufferBound := true;
      trace := trace + [Op.BindBuffer];
    }

    /** A texture's `Bind()`: make it the draw source. */
    method BindTexture(texture: Handle)
      modifies this
      ensures State() == Step(old(State()), Op.BindTexture(texture))
      ensures trace == old(trace) + [Op.BindTexture(texture)]
    {
      boundTexture := Some(texture);
      trace := trace + [Op.BindTexture(texture)];
    }

    /** `glBlendFunc(src, dst)` on the instance's context. */
    method SetBlendFunc(func: BlendFunc)
      modifies this
      ensures State() == Step(old(State()), Op.SetBlendFunc(func))
      ensures trace == old(trace) + [Op.SetBlendFunc(func)]
    {
      blendFunc := func;
      trace := trace + [Op.SetBlendFunc(func)];
    }

    /** A full-screen draw through the instance's default pipeline. */
    method Blit()
      modifies this
      ensures State() == Step(old(State()), Op.Blit)
      ensures trace == old(trace) + [Op.Blit]
    {
      trace := trace + [Op.Blit];
    }

    /** A texture's `Release()`: unbind the draw source. */
    method ReleaseTexture(texture: Handle)
      modifies this
      ensures State() == Step(old(State()), Op.ReleaseTexture(texture))
      ensures trace == old(trace) + [Op.ReleaseTexture(texture)]
    {
      boundTexture := None;
      trace := trace + [Op.ReleaseTexture(texture)];
    }

    /** The framebuffer's `Release()`: stop rendering into it. */
    method ReleaseBuffer()
      modifies this
      ensures State() == Step(old(State()), Op.ReleaseBuffer)
      ensures trace == old(trace) + [Op.ReleaseBuffer]
    {
      bufferBound := false;
      trace := trace + [Op.ReleaseBuffer];
    }

    /** The framebuffer's `Detach()`: forget the target texture. */
    method DetachBuffer()
      modifies this
      ensures State() == Step(old(State()), Op.DetachBuffer)
      ensures trace == old(trace) + [Op.DetachBuffer]
    {
      attached := None;
      trace := trace + [Op.DetachBuffer];
    }
  }
}

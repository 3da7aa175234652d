# Alpha over blend node

A Dafny model of Olive's "alpha over" compositing node (`AlphaOverBlend`). The node
composites a blend texture over a base texture. It has two forms:

- the accelerated path, `Value`, draws the blend texture over the base texture in place,
  on the GPU of the worker's current render instance;
- the kernel-generation path, `Code`, emits a named per-pixel kernel instead.

Modules:

- `Wrappers` (wrappers.dfy): `Option`. It stands in for a null pointer or a null texture handle.
- `Gpu` (gpu.dfy): the render instance as a class. It holds the framebuffer attachment and
  binding, the bound source texture, the blend function and a ghost trace of every GPU call.
  `Step`/`Replay` give each call's effect on that state. `Nested` says when a sequence of calls
  is a properly nested acquire/release bracket. `NestedEndsIdle` proves that such a bracket
  leaves nothing attached and nothing bound.
- `AlphaOver` (alpha_over.dfy): the node. It has the branch selection of `Value` as pure
  functions (`Decide`, `Evaluate`), `Value` itself as a method that issues the GPU calls on
  the render instance, `Code`, `Release` and `Id`.
- `PixelMath` (pixel_math.dfy): the per-pixel meaning of the hardware blend and of the kernel
  formula, over exact reals. It backs the finding below.

Points about the code that the model keeps as they are:

- The compositing branch clears the attachment and both bindings whatever it found, but it
  leaves the context's blend function at `(ONE, ONE_MINUS_SRC_ALPHA)`. So an instance found idle
  is left idle, but it is not left exactly as found. `CompositeRestoresIdle` states this.
- The code has no failure path, so the GPU primitives cannot fail in the model.
- When there is no render instance, the code returns an integer `0` boxed as a variant, not a
  null texture. Both are "no value" to a caller, and the model returns `NoValue`.

## Model

| member | source | states |
|---|---|---|
| AlphaOver.Evaluate | app/node/blend/alphaover/alphaover.cpp:68-115 | No render instance, or an output other than the texture output, gives no value. Two absent inputs give no value. One present input is returned unchanged, in either position. Two present inputs give the base handle. No handle is invented. A value comes back exactly when there is something to return. |
| AlphaOver.Value | app/node/blend/alphaover/alphaover.cpp:68-115 | Returns `Evaluate`'s value. It resolves the inputs only on the texture-output branch with a render instance. It issues exactly the calls of its branch: none on the early returns, the compositing bracket otherwise. The new instance state is those calls replayed on the old one. The compositing branch leaves nothing attached or bound and the blend function at "over". An instance found idle is left idle on every branch. |
| AlphaOver.GpuUsedOnlyToComposite | app/node/blend/alphaover/alphaover.cpp:74-89 | GPU calls are issued if and only if a render instance exists, the texture output is requested and both inputs are present. |
| AlphaOver.InputsResolvedOnlyForTexture | app/node/blend/alphaover/alphaover.cpp:74-81 | The inputs are resolved if and only if a render instance exists and the texture output is requested. |
| AlphaOver.CompositeIsNested | app/node/blend/alphaover/alphaover.cpp:91-107 | The compositing calls attach, bind the framebuffer and bind the blend texture, then release them in the reverse order, never taking a resource twice. |
| AlphaOver.CompositeStates | app/node/blend/alphaover/alphaover.cpp:91-107 | After the four setup calls, the framebuffer is attached to base and bound, blend is bound and the blend function is "over". After all the calls, nothing is attached or bound and the blend function is "over". |
| AlphaOver.CompositeDrawsOnceOver | app/node/blend/alphaover/alphaover.cpp:96-105 | The compositing calls draw exactly once. At that draw, base is the attached and bound target, blend is the bound source and the blend function is `(ONE, ONE_MINUS_SRC_ALPHA)`. So the draw comes after every bind and the blend function, and before any release. |
| AlphaOver.CompositeRestoresIdle | app/node/blend/alphaover/alphaover.cpp:104-107 | Compositing leaves nothing attached or bound from any starting state. From an idle state, the only lasting change is the blend function. |
| Gpu.NestedEndsIdle | app/node/blend/alphaover/alphaover.cpp:91-107 | Any properly nested acquire/release bracket, started with exactly the listed resources held, ends with nothing attached and nothing bound. |
| Gpu.IdleBracketStaysIdle | app/node/blend/alphaover/alphaover.cpp:91-107 | A properly nested bracket started on an idle instance leaves it idle. |
| Gpu.ReplayAppend | app/node/blend/alphaover/alphaover.cpp:91-107 | Issuing two runs of calls one after the other has the same effect as issuing them as one sequence. |
| Gpu.RenderInstance.AttachBuffer | app/node/blend/alphaover/alphaover.cpp:92 | Only the attachment changes, and it becomes the target texture. The call is appended to the trace. |
| Gpu.RenderInstance.BindBuffer | app/node/blend/alphaover/alphaover.cpp:93 | Only the framebuffer binding changes, and it becomes bound. The call is appended to the trace. |
| Gpu.RenderInstance.BindTexture | app/node/blend/alphaover/alphaover.cpp:96 | Only the bound source texture changes, and it becomes the given texture. The call is appended to the trace. |
| Gpu.RenderInstance.SetBlendFunc | app/node/blend/alphaover/alphaover.cpp:99 | Only the blend function changes. The call is appended to the trace. |
| Gpu.RenderInstance.Blit | app/node/blend/alphaover/alphaover.cpp:102 | No binding state changes. The call is appended to the trace. |
| Gpu.RenderInstance.ReleaseTexture | app/node/blend/alphaover/alphaover.cpp:105 | Only the bound source texture changes, and it becomes unbound. The call is appended to the trace. |
| Gpu.RenderInstance.ReleaseBuffer | app/node/blend/alphaover/alphaover.cpp:106 | Only the framebuffer binding changes, and it becomes unbound. The call is appended to the trace. |
| Gpu.RenderInstance.DetachBuffer | app/node/blend/alphaover/alphaover.cpp:107 | Only the attachment changes, and it becomes empty. The call is appended to the trace. |
| AlphaOver.Decide | app/node/blend/alphaover/alphaover.cpp:74-89 | The branch taken: "no renderer" exactly when there is no render instance, "not produced" exactly when another output is requested, and "composite" exactly when both inputs are present. Each branch carries the inputs' handles unchanged: only blend present gives blend, only base present gives base, both present give both. |
| AlphaOver.CompositeInPlace | app/node/blend/alphaover/alphaover.cpp:91-107 | Issues exactly the compositing calls, in order: the trace grows by them, and the new state is those calls replayed on the old one. |
| AlphaOver.CompositeOps | app/node/blend/alphaover/alphaover.cpp:92-107 | Eight calls. The first attaches the framebuffer to base and the last detaches it. The draw is the fifth call. The only texture ever bound or released is blend. |
| Gpu.Step | app/node/blend/alphaover/alphaover.cpp:92-107 | Each call takes or gives back only its own resource: after an attach or bind, that resource is held, and after a release or detach, it is not. Only attach/detach touch the attachment, only the framebuffer bind/release touch its binding, and only the texture bind/release touch the bound texture. Only `SetBlendFunc` changes the blend function, and a draw changes nothing. |
| PixelMath.AcceleratedOver | app/node/blend/alphaover/alphaover.cpp:99 | With `(ONE, ONE_MINUS_SRC_ALPHA)`, an opaque blend pixel replaces the base, and a fully transparent premultiplied one leaves it unchanged. The result alpha is `blend.a + base.a * (1 - blend.a)`. |
| PixelMath.KernelAsWritten | app/node/blend/alphaover/alphaover.cpp:54-57 | As written, the kernel passes the base alpha through unchanged, and a fully transparent premultiplied blend pixel leaves the base unchanged. |
| AlphaOver.Code | app/node/blend/alphaover/alphaover.cpp:48-62 | For the texture output, the result is the fixed descriptor named "AlphaOver" with the fixed kernel text. For any other output, it is what the generic node's `Code` gives, unchanged. |
| AlphaOver.CodeIndependentOfInherited | app/node/blend/alphaover/alphaover.cpp:50-58 | The texture output's descriptor does not depend on the generic node's behaviour. |
| AlphaOver.Release | app/node/blend/alphaover/alphaover.cpp:64-66 | Releasing changes nothing on the render instance and issues no call, so it is idempotent. |
| AlphaOver.Id | app/node/blend/alphaover/alphaover.cpp:38-41 | The identity is a constant in the `org.olivevideoeditor.Olive.` namespace. |
| PixelMath.KernelAsWrittenDiffers | app/node/blend/alphaover/alphaover.cpp:54-57 | On base (0.8, 0.2, 0.2, 1.0) under blend (0.0, 0.0, 1.0, 0.5), the written kernel gives red 0.3. The hardware "over" gives 0.4. |
| PixelMath.KernelAsWrittenAlpha | app/node/blend/alphaover/alphaover.cpp:57 | The written kernel always returns the base alpha. The hardware "over" does so if and only if the blend alpha is 0 or the base alpha is 1. |
| PixelMath.KernelOver | app/node/blend/alphaover/alphaover.cpp:54-57 | Under the corrected formula, an opaque blend pixel replaces the base, and a fully transparent premultiplied one (all channels 0) leaves it unchanged. |
| PixelMath.KernelOverMatchesAccelerated | app/node/blend/alphaover/alphaover.cpp:54-57 | The corrected kernel formula equals the hardware blend with `(ONE, ONE_MINUS_SRC_ALPHA)` on every channel, alpha included. |

## Left out

- The OpenGL semantics of binding, attaching and drawing. Each call is only its named state change plus a trace entry.
- The renderer's default pipeline passed to the blit. It is the instance's own and never changes here.
- `VideoRendererProcessor::CurrentInstance()` is a per-worker global lookup. It is the nullable `renderer` parameter of `Value`.
- Upstream evaluation through the inputs' `get_value` and the time window `[in, out)`. The window is only passed through. The two inputs' results are the `base` and `blend` parameters, and the ghost `requested` result records whether they were asked for.
- Shared ownership of textures and the variant boxing of the result (lines 80-81, 110). These are reference-counting plumbing. A handle is a plain identity.
- `Name()` and `Description()` (lines 33-46). They are translated display text and change no behaviour.
- The generic `Node::Code` is not part of this model. Its result is the `inherited` parameter of `Code`.
- The contents of the kernel text are opaque to `Code`. The formula they spell out is modelled only in `PixelMath`.
- `PixelMath` uses exact reals. It does not model floating-point rounding or framebuffer clamping to [0, 1].
- Threading and worker scheduling. Each render instance belongs to one worker, so no concurrency is modelled.

## Findings

| source | as written | input that shows it | evidently intended | confidence | as-written member | corrected member |
|---|---|---|---|---|---|---|
| app/node/blend/alphaover/alphaover.cpp:54-57 | Each channel of the kernel is `base - blend.a + blend`, and alpha comes out as `base.a`. | base (0.8, 0.2, 0.2, 1.0), blend (0.0, 0.0, 1.0, 0.5): red is 0.3 in the kernel, 0.4 in the accelerated path (line 99). | `blend + base * (1 - blend.a)` per channel, the same "over" the accelerated path configures. | medium, not executed | PixelMath.KernelAsWrittenDiffers | PixelMath.KernelOverMatchesAccelerated |

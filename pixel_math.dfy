/**
  Per-pixel meaning of the two compositing paths, over exact reals: the hardware
  blend that the accelerated path configures, and the per-channel formula of the
  emitted kernel. Clamping and floating-point rounding are not modelled.
*/
module PixelMath {
  import opened Gpu

  datatype Pixel = Pixel(r: real, g: real, b: real, a: real)

  /** The weight a blend factor gives, given the source (incoming) pixel. */
  function Weight(f: BlendFactor, src: Pixel): real {
    match f
    case Zero => 0.0
    case One => 1.0
    case SrcAlpha => src.a
    case OneMinusSrcAlpha => 1.0 - src.a
  }

  /** The fixed-function blend: every channel, alpha included, is `src * S + dst * D`. */
  function HardwareBlend(func: BlendFunc, src: Pixel, dst: Pixel): Pixel {
    var ws, wd := Weight(func.src, src), Weight(func.dst, src);
    Pixel(src.r * ws + dst.r * wd, src.g * ws + dst.g * wd,
          src.b * ws + dst.b * wd, src.a * ws + dst.a * wd)
  }

  /** The accelerated path: the blend pixel drawn over the base pixel with `OverFunc`. */
  function AcceleratedOver(base: Pixel, blend: Pixel): (p: Pixel)
    // an opaque blend pixel hides the base
    ensures blend.a == 1.0 ==> p == blend
    // a fully transparent, premultiplied blend pixel leaves the base as it was
    ensures blend == Pixel(0.0, 0.0, 0.0, 0.0) ==> p == base
    ensures p.a == blend.a + base.a * (1.0 - blend.a)
  {
    HardwareBlend(OverFunc, blend, base)
  }

  /** The kernel formula as the emitted text writes it: `base - blend.a + blend`, per channel. */
  function KernelAsWritten(base: Pixel, blend: Pixel): (p: Pixel)
    // the base alpha passes through whatever the blend pixel is
    ensures p.a == base.a
    ensures blend == Pixel(0.0, 0.0, 0.0, 0.0) ==> p == base
  {
    Pixel(base.r - blend.a + blend.r, base.g - blend.a + blend.g,
          base.b - blend.a + blend.b, base.a - blend.a + blend.a)
  }

  /** The "over" formula the kernel evidently means: `blend + base * (1 - blend.a)`, per channel. */
  function KernelOver(base: Pixel, blend: Pixel): (p: Pixel)
    // a fully opaque blend pixel hides the base
    ensures blend.a == 1.0 ==> p == blend
    // a fully transparent, premultiplied blend pixel leaves the base as it was
    ensures blend == Pixel(0.0, 0.0, 0.0, 0.0) ==> p == base
  {
    var k := 1.0 - blend.a;
    Pixel(blend.r + base.r * k, blend.g + base.g * k, blend.b + base.b * k, blend.a + base.a * k)
  }

  /** The corrected kernel agrees with the accelerated path on every pixel and every channel. */
  lemma KernelOverMatchesAccelerated(base: Pixel, blend: Pixel)
    ensures KernelOver(base, blend) == AcceleratedOver(base, blend)
  {
  }

  /**
    The kernel as written disagrees with the accelerated path: base (0.8, 0.2, 0.2, 1.0)
    under blend (0.0, 0.0, 1.0, 0.5) gives red 0.3 instead of 0.4.
  */
  lemma KernelAsWrittenDiffers()
    ensures var base, blend := Pixel(0.8, 0.2, 0.2, 1.0), Pixel(0.0, 0.0, 1.0, 0.5);
      && KernelAsWritten(base, blend).r == 0.3
      && AcceleratedOver(base, blend).r == 0.4
  {
  }

  /** The written formula always returns the base alpha unchanged, which "over" does only when the blend alpha is 0 or the base alpha is 1. */
  lemma KernelAsWrittenAlpha(base: Pixel, blend: Pixel)
    ensures KernelAsWritten(base, blend).a == base.a
    ensures AcceleratedOver(base, blend).a == base.a <==> blend.a == 0.0 || base.a == 1.0
  {
  }
}

/** Quantities of GPU capacity, shared by the scheduler and the reconcilers. */
module Resources {

  datatype Option<+T> = None | Some(value: T)

  datatype Dimension = Tflops | Vram

  /** A pair of quantities, or a request for them: TFlops and bytes of VRAM. */
  datatype Resource = Resource(tflops: int, vram: int) {
    function Plus(other: Resource): Resource {
      Resource(tflops + other.tflops, vram + other.vram)
    }

    function Minus(other: Resource): Resource {
      Resource(tflops - other.tflops, vram - other.vram)
    }

    function In(d: Dimension): int {
      if d.Tflops? then tflops else vram
    }

    /** This much capacity is enough for the request, in both dimensions. */
    predicate Covers(request: Resource) {
      tflops >= request.tflops && vram >= request.vram
    }

    predicate NonNegative() {
      tflops >= 0 && vram >= 0
    }
  }
}

/*
 * Feature algorithms and the decorator that chains them.
 *
 * A chain is a decorator wrapping a feature algorithm that may itself be a
 * decorator, down to one concrete algorithm. Every node stores its own
 * descriptor size and extra size. A decorator's setters write its own
 * field and then call the same setter on the algorithm it wraps, so a write
 * at the head reaches every node. GPU contexts, textures and downloaded
 * feature lists are the type parameters G, T and F; the GPU work of a
 * concrete algorithm is an opaque function it is built with.
 */
module FeatureAlgorithmDecorator {
  import opened KeypointLayout

  /**
   * What a node of a chain is, fixed when it is built: a concrete algorithm,
   * whose `run` is `kernel` (given the layout it writes records in) and
   * whose `download` decodes with `decoder` (given the flags and the layout
   * it expects), or a decorator around another algorithm.
   */
  datatype Role<!G, !T, !F> =
    | Concrete(kernel: (G, T, Layout) -> T, decoder: (G, T, int, Layout) -> F)
    | Decorating(decorated: FeatureAlgorithm<G, T, F>)

  class FeatureAlgorithm<G, T, F> {
    var descriptorSize: int
    var extraSize: int
    const role: Role<G, T, F>

    /** This node and every node below it. */
    ghost var Repr: set<FeatureAlgorithm<G, T, F>>

    /** The chain below this node is finite and acyclic. */
    ghost predicate Valid()
      reads this, Repr
      decreases Repr
    {
      this in Repr &&
      match role
      case Concrete(_, _) => Repr == {this}
      case Decorating(inner) =>
        inner in Repr && this !in inner.Repr && Repr == {this} + inner.Repr && inner.Valid()
    }

    /** The layouts of this node and of every node below it, head first. */
    ghost function Layouts(): (chain: seq<Layout>)
      reads this, Repr
      requires Valid()
      ensures chain != [] && chain[0] == Layout(descriptorSize, extraSize)
      decreases Repr
    {
      [Layout(descriptorSize, extraSize)] +
      match role
      case Concrete(_, _) => []
      case Decorating(inner) => inner.Layouts()
    }

    /** The GPU work of the concrete algorithm at the bottom of the chain. */
    ghost function Kernel(): (G, T, Layout) -> T
      reads this, Repr
      requires Valid()
      decreases Repr
    {
      match role
      case Concrete(kernel, _) => kernel
      case Decorating(inner) => inner.Kernel()
    }

    /** The decoding of the concrete algorithm at the bottom of the chain. */
    ghost function Decoder(): (G, T, int, Layout) -> F
      reads this, Repr
      requires Valid()
      decreases Repr
    {
      match role
      case Concrete(_, decoder) => decoder
      case Decorating(inner) => inner.Decoder()
    }

    /** A concrete algorithm with the given sizes. */
    constructor Create(descriptorSize: int, extraSize: int, kernel: (G, T, Layout) -> T, decoder: (G, T, int, Layout) -> F)
      ensures Valid() && fresh(Repr)
      ensures role.Concrete? && Kernel() == kernel && Decoder() == decoder
      ensures Layouts() == [Layout(descriptorSize, extraSize)]
    {
      this.descriptorSize := descriptorSize;
      this.extraSize := extraSize;
      role := Concrete(kernel, decoder);
      Repr := {this};
    }

    /**
     * A decorator around `decorated`. The caller must not ask for smaller
     * sizes than `decorated` has (TryDecorate reports that case instead).
     * The decorator takes the requested sizes, then writes them onto
     * `decorated`, descriptor size first, through its setters: afterwards
     * every node of the new chain has the requested layout.
     */
    constructor Decorate(decorated: FeatureAlgorithm<G, T, F>, descriptorSize: int, extraSize: int)
      requires decorated.Valid()
      requires descriptorSize >= decorated.descriptorSize && extraSize >= decorated.extraSize
      modifies decorated.Repr`descriptorSize, decorated.Repr`extraSize
      ensures Valid() && Repr == {this} + decorated.Repr
      ensures role == Decorating(decorated)
      ensures Layouts() == Compose(Layout(descriptorSize, extraSize), old(decorated.Layouts())).value
      ensures forall k :: 0 <= k < |Layouts()| ==> Layouts()[k] == Layout(descriptorSize, extraSize)
      ensures |Layouts()| == |old(decorated.Layouts())| + 1
      ensures decorated.descriptorSize == descriptorSize && decorated.extraSize == extraSize
      ensures Kernel() == old(decorated.Kernel()) && Decoder() == old(decorated.Decoder())
    {
      this.descriptorSize := descriptorSize;
      this.extraSize := extraSize;
      role := Decorating(decorated);
      Repr := {this} + decorated.Repr;
      new;
      decorated.SetDescriptorSize(this.descriptorSize);
      decorated.SetExtraSize(this.extraSize);
    }

    /** The algorithm this decorator wraps: a valid chain strictly inside this one, whose layouts follow this node's. */
    function DecoratedAlgorithm(): (inner: FeatureAlgorithm<G, T, F>)
      reads this, Repr
      requires Valid() && role.Decorating?
      ensures inner == role.decorated
      ensures inner.Valid() && inner.Repr < Repr && this !in inner.Repr
      ensures inner.Layouts() == Layouts()[1..]
    {
      role.decorated
    }

    /** The stored extra size of this node alone; no node below it is read. */
    function ExtraSize(): (bytes: int)
      reads this
      ensures bytes == extraSize
    {
      extraSize
    }

    /** The stored descriptor size of this node alone; no node below it is read. */
    function DescriptorSize(): (bytes: int)
      reads this
      ensures bytes == descriptorSize
    {
      descriptorSize
    }

    /**
     * Sets the extra size here and, through the wrapped algorithm's own
     * setter, on every node below: each node now has extra size `bytes`
     * and keeps its descriptor size.
     */
    method SetExtraSize(bytes: int)
      requires Valid()
      modifies Repr`extraSize
      ensures Valid()
      ensures Layouts() == WithExtraSize(old(Layouts()), bytes)
      ensures Kernel() == old(Kernel()) && Decoder() == old(Decoder())
      decreases Repr
    {
      extraSize := bytes;
      match role
      case Concrete(_, _) =>
      case Decorating(inner) =>
        inner.SetExtraSize(bytes);
    }

    /**
     * Sets the descriptor size here and, through the wrapped algorithm's
     * own setter, on every node below: each node now has descriptor size
     * `bytes` and keeps its extra size.
     */
    method SetDescriptorSize(bytes: int)
      requires Valid()
      modifies Repr`descriptorSize
      ensures Valid()
      ensures Layouts() == WithDescriptorSize(old(Layouts()), bytes)
      ensures Kernel() == old(Kernel()) && Decoder() == old(Decoder())
      decreases Repr
    {
      descriptorSize := bytes;
      match role
      case Concrete(_, _) =>
      case Decorating(inner) =>
        inner.SetDescriptorSize(bytes);
    }

    /**
     * Runs the chain: every decorator passes the call on without checking
     * any sizes, so the result is the concrete algorithm's, computed in the
     * layout of the bottom node; in a chain that is in step, that is this
     * node's layout.
     */
    method Run(gpu: G, inputTexture: T) returns (output: T)
      requires Valid()
      ensures output == Kernel()(gpu, inputTexture, Layouts()[|Layouts()| - 1])
      ensures Uniform(Layouts()) ==> output == Kernel()(gpu, inputTexture, Layout(descriptorSize, extraSize))
      decreases Repr
    {
      match role
      case Concrete(kernel, _) =>
        output := kernel(gpu, inputTexture, Layout(descriptorSize, extraSize));
      case Decorating(inner) =>
        output := inner.Run(gpu, inputTexture);
    }

    /**
     * Downloads keypoints through the chain. Each decorator first checks
     * that its sizes equal those of the algorithm it wraps and fails
     * otherwise; so the download succeeds exactly when the whole chain has
     * one layout, and then it is the concrete algorithm's decoding with
     * the same flags and this node's layout.
     */
    method Download(gpu: G, encodedKeypoints: T, flags: int) returns (r: Result<F>)
      requires Valid()
      ensures r.Success? <==> Uniform(Layouts())
      ensures r.Failure? ==> r.error == LayoutMismatch
      ensures r.Success? ==> r.value == Decoder()(gpu, encodedKeypoints, flags, Layout(descriptorSize, extraSize))
      decreases Repr
    {
      match role
      case Concrete(_, decoder) =>
        r := Success(decoder(gpu, encodedKeypoints, flags, Layout(descriptorSize, extraSize)));
      case Decorating(inner) =>
        UniformCons(Layout(descriptorSize, extraSize), inner.Layouts());
        if extraSize != inner.extraSize || descriptorSize != inner.descriptorSize {
          r := Failure(LayoutMismatch);
        } else {
          r := inner.Download(gpu, encodedKeypoints, flags);
        }
    }

    /**
     * A decorator is a pass-through: it runs what the algorithm it wraps
     * runs, with the same bottom layout, and when its sizes match that algorithm's, its download
     * succeeds exactly when the wrapped one does, with the same decoding
     * of the same layout.
     */
    lemma DecoratorDelegates()
      requires Valid() && role.Decorating?
      ensures Kernel() == role.decorated.Kernel()
      ensures Layouts()[|Layouts()| - 1] == role.decorated.Layouts()[|role.decorated.Layouts()| - 1]
      ensures Layouts()[0] == role.decorated.Layouts()[0] ==>
                (Uniform(Layouts()) <==> Uniform(role.decorated.Layouts())) &&
                Decoder() == role.decorated.Decoder()
    {
      UniformCons(Layouts()[0], role.decorated.Layouts());
    }
  }

  /**
   * The decorator constructor together with its checks: asking for a
   * smaller descriptor or extra size than `decorated` has is refused before
   * anything is written; otherwise a new decorator is built around it.
   */
  method TryDecorate<G, T, F>(decorated: FeatureAlgorithm<G, T, F>, descriptorSize: int, extraSize: int)
    returns (r: Result<FeatureAlgorithm<G, T, F>>)
    requires decorated.Valid()
    modifies decorated.Repr`descriptorSize, decorated.Repr`extraSize
    ensures r.Failure? <==> Compose(Layout(descriptorSize, extraSize), old(decorated.Layouts())).Failure?
    ensures r.Failure? ==> r.error == InvalidComposition && unchanged(decorated.Repr)
    ensures r.Success? ==>
              fresh(r.value) && r.value.Valid() && r.value.role == Decorating(decorated) &&
              r.value.Layouts() == Compose(Layout(descriptorSize, extraSize), old(decorated.Layouts())).value &&
              r.value.Kernel() == old(decorated.Kernel()) && r.value.Decoder() == old(decorated.Decoder())
  {
    if descriptorSize < decorated.descriptorSize || extraSize < decorated.extraSize {
      return Failure(InvalidComposition);
    }
    var decorator := new FeatureAlgorithm.Decorate(decorated, descriptorSize, extraSize);
    r := Success(decorator);
  }

  /**
   * A concrete algorithm with descriptor size 32 and extra size 8, wrapped
   * in a decorator with the same sizes. Writing extra size 16 onto the
   * wrapped algorithm directly leaves the decorator's own value at 8 and
   * makes its download fail; setting 16 through the decorator brings the
   * chain back in step and the download succeeds.
   */
  method TamperingScenario<G, T, F>(kernel: (G, T, Layout) -> T, decoder: (G, T, int, Layout) -> F, gpu: G, encodedKeypoints: T)
    returns (drifted: Result<F>, resynchronised: Result<F>)
    ensures drifted == Failure(LayoutMismatch)
    ensures resynchronised == Success(decoder(gpu, encodedKeypoints, 0, Layout(32, 16)))
  {
    var concrete := new FeatureAlgorithm.Create(32, 8, kernel, decoder);
    var decorator := new FeatureAlgorithm.Decorate(concrete, 32, 8);
    assert decorator.DecoratedAlgorithm() == concrete;
    assert concrete.Layouts() == [Layout(32, 8)];
    concrete.SetExtraSize(16);
    assert decorator.ExtraSize() == 8;
    assert concrete.Layouts() == [Layout(32, 16)];
    assert decorator.Layouts() == [Layout(32, 8), Layout(32, 16)];
    drifted := decorator.Download(gpu, encodedKeypoints, 0);
    decorator.SetExtraSize(16);
    assert decorator.Layouts() == [Layout(32, 16), Layout(32, 16)];
    resynchronised := decorator.Download(gpu, encodedKeypoints, 0);
  }
}

/*
 * The binary layout that a chain of feature algorithms negotiates: the
 * descriptor and extra-data sizes of every node of the chain, the size of
 * one encoded keypoint record, and the value-level effect of composing a
 * decorator and of its cascading setters.
 */
module KeypointLayout {
  import opened Globals

  /** The two byte-size attributes of a feature algorithm. */
  datatype Layout = Layout(descriptorSize: int, extraSize: int)

  /** Failures the composition protocol reports. */
  datatype Error =
    | InvalidComposition  // a decorator asked for a smaller layout than the algorithm it wraps
    | LayoutMismatch      // download found a decorator out of step with the algorithm it wraps

  datatype Result<V> = Success(value: V) | Failure(error: Error)

  // ---------------------------------------------------------------
  // Keypoint records
  // ---------------------------------------------------------------

  /** Bytes of one encoded keypoint: header, then extra data, then descriptor. */
  function RecordSize(l: Layout): (r: int)
  {
    MIN_KEYPOINT_SIZE + l.extraSize + l.descriptorSize
  }

  /** Both sizes follow the 32-bit convention of the setters. */
  predicate Aligned(l: Layout)
  {
    l.descriptorSize % 4 == 0 && l.extraSize % 4 == 0
  }

  /** The header and the largest descriptor are whole 32-bit words, and so is every record of an aligned layout. */
  lemma RecordSizeAligned(l: Layout)
    requires Aligned(l)
    ensures MIN_KEYPOINT_SIZE % 4 == 0 && MAX_DESCRIPTOR_SIZE % 4 == 0
    ensures RecordSize(l) % 4 == 0
  {
  }

  lemma RecordSizeExample()
    ensures RecordSize(Layout(32, 8)) == 48 && 48 % 4 == 0
  {
  }

  // ---------------------------------------------------------------
  // Chains: the layouts of a decorator, of the algorithm it wraps,
  // of the algorithm that one wraps, ... down to a concrete algorithm
  // ---------------------------------------------------------------

  /** Every node of the chain has the same layout. */
  predicate Uniform(chain: seq<Layout>)
  {
    forall k :: 0 <= k < |chain| ==> chain[k] == chain[0]
  }

  /** Every node has the same layout as the node it wraps: what download checks, node by node. */
  predicate Agrees(chain: seq<Layout>)
  {
    forall k :: 0 <= k < |chain| - 1 ==> chain[k] == chain[k + 1]
  }

  /** Setting the extra size on the head of a chain cascades the value down to every node. */
  function WithExtraSize(chain: seq<Layout>, bytes: int): (r: seq<Layout>)
    ensures |r| == |chain|
    ensures forall k :: 0 <= k < |r| ==> r[k] == Layout(chain[k].descriptorSize, bytes)
  {
    if chain == [] then []
    else [Layout(chain[0].descriptorSize, bytes)] + WithExtraSize(chain[1..], bytes)
  }

  /** Setting the descriptor size on the head of a chain cascades the value down to every node. */
  function WithDescriptorSize(chain: seq<Layout>, bytes: int): (r: seq<Layout>)
    ensures |r| == |chain|
    ensures forall k :: 0 <= k < |r| ==> r[k] == Layout(bytes, chain[k].extraSize)
  {
    if chain == [] then []
    else [Layout(bytes, chain[0].extraSize)] + WithDescriptorSize(chain[1..], bytes)
  }

  /**
   * Wrapping a chain whose head has layout inner[0] in a decorator that
   * requests `requested`: refused when it would shrink either size of the
   * head; otherwise the decorator is prepended and both requested sizes
   * are cascaded onto the wrapped chain, descriptor size first.
   */
  function Compose(requested: Layout, inner: seq<Layout>): (r: Result<seq<Layout>>)
    requires inner != []
    ensures r.Failure? <==>
              requested.descriptorSize < inner[0].descriptorSize || requested.extraSize < inner[0].extraSize
    ensures r.Failure? ==> r.error == InvalidComposition
    ensures r.Success? ==> |r.value| == |inner| + 1 && Uniform(r.value) && r.value[0] == requested
  {
    if requested.descriptorSize < inner[0].descriptorSize || requested.extraSize < inner[0].extraSize then
      Failure(InvalidComposition)
    else
      Success([requested] + WithExtraSize(WithDescriptorSize(inner, requested.descriptorSize), requested.extraSize))
  }

  // ---------------------------------------------------------------
  // Properties of the cascade
  // ---------------------------------------------------------------

  /** Agreement of neighbours is the same as one layout for the whole chain. */
  lemma {:induction false} AgreesIffUniform(chain: seq<Layout>)
    ensures Agrees(chain) <==> Uniform(chain)
  {
    if Agrees(chain) && chain != [] {
      forall k | 0 <= k < |chain| ensures chain[k] == chain[0] {
        AgreesReachesHead(chain, k);
      }
    }
  }

  lemma {:induction false} AgreesReachesHead(chain: seq<Layout>, k: nat)
    requires Agrees(chain) && k < |chain|
    ensures chain[k] == chain[0]
  {
    if k > 0 {
      AgreesReachesHead(chain, k - 1);
    }
  }

  /** A chain is uniform exactly when its head matches the next node and the rest is uniform. */
  lemma UniformCons(head: Layout, rest: seq<Layout>)
    ensures Uniform([head] + rest) <==> (rest == [] || rest[0] == head) && Uniform(rest)
  {
    var chain := [head] + rest;
    if (rest == [] || rest[0] == head) && Uniform(rest) {
      forall k | 0 <= k < |chain| ensures chain[k] == chain[0] {
        if k > 0 {
          assert chain[k] == rest[k - 1];
        }
      }
    }
    if Uniform(chain) {
      forall k | 0 <= k < |rest| ensures rest[k] == rest[0] {
        assert rest[k] == chain[k + 1] == chain[0];
        assert rest[0] == chain[1] == chain[0];
      }
      assert rest != [] ==> rest[0] == chain[1] == head;
    }
  }

  /** A setter called on the head keeps a uniform chain uniform. */
  lemma SetterKeepsUniform(chain: seq<Layout>, bytes: int)
    requires Uniform(chain)
    ensures Uniform(WithExtraSize(chain, bytes)) && Uniform(WithDescriptorSize(chain, bytes))
  {
  }

  /** Setting both sizes on the head makes any chain uniform again, with those sizes everywhere. */
  lemma SettersResynchronise(chain: seq<Layout>, d: int, e: int)
    ensures Uniform(WithExtraSize(WithDescriptorSize(chain, d), e))
    ensures forall k :: 0 <= k < |chain| ==> WithExtraSize(WithDescriptorSize(chain, d), e)[k] == Layout(d, e)
  {
  }

  /** A second call of the same setter overrides the first. */
  lemma SetterLastWriteWins(chain: seq<Layout>, first: int, second: int)
    ensures WithExtraSize(WithExtraSize(chain, first), second) == WithExtraSize(chain, second)
    ensures WithDescriptorSize(WithDescriptorSize(chain, first), second) == WithDescriptorSize(chain, second)
  {
  }

  /** The two setters touch different attributes, so their order does not matter. */
  lemma SettersCommute(chain: seq<Layout>, d: int, e: int)
    ensures WithExtraSize(WithDescriptorSize(chain, d), e) == WithDescriptorSize(WithExtraSize(chain, e), d)
  {
  }

  /** Sizes that are multiples of 4 stay so under either setter given a multiple of 4. */
  lemma SetterKeepsAlignment(chain: seq<Layout>, bytes: int)
    requires forall k :: 0 <= k < |chain| ==> Aligned(chain[k])
    requires bytes % 4 == 0
    ensures forall k :: 0 <= k < |chain| ==> Aligned(WithExtraSize(chain, bytes)[k])
    ensures forall k :: 0 <= k < |chain| ==> Aligned(WithDescriptorSize(chain, bytes)[k])
  {
  }

  /**
   * Writing a size onto a wrapped node directly, rather than through the
   * head, leaves the head out of step: the chain is no longer uniform.
   */
  lemma DirectWriteBreaksUniform(chain: seq<Layout>, bytes: int)
    requires |chain| >= 2
    requires bytes != chain[0].extraSize
    ensures !Uniform([chain[0]] + WithExtraSize(chain[1..], bytes))
  {
    var drifted := [chain[0]] + WithExtraSize(chain[1..], bytes);
    assert drifted[1].extraSize == bytes;
  }

  /** Composing onto a uniform chain never shrinks any node's sizes. */
  lemma ComposeOnlyGrows(requested: Layout, inner: seq<Layout>)
    requires inner != [] && Uniform(inner)
    requires Compose(requested, inner).Success?
    ensures forall k :: 0 <= k < |inner| ==>
              Compose(requested, inner).value[k + 1].descriptorSize >= inner[k].descriptorSize &&
              Compose(requested, inner).value[k + 1].extraSize >= inner[k].extraSize
  {
    var composed := Compose(requested, inner).value;
    forall k | 0 <= k < |inner|
      ensures composed[k + 1].descriptorSize >= inner[k].descriptorSize
      ensures composed[k + 1].extraSize >= inner[k].extraSize
    {
      assert composed[k + 1] == requested;
      assert inner[k] == inner[0];
    }
  }

  /**
   * Only the head of the wrapped chain is compared: when a wrapped chain
   * has drifted out of step, composing can shrink a deeper node.
   */
  lemma ComposeChecksOnlyTheHead()
    ensures Compose(Layout(16, 0), [Layout(0, 0), Layout(32, 0)]) == Success([Layout(16, 0), Layout(16, 0), Layout(16, 0)])
  {
    var composed := Compose(Layout(16, 0), [Layout(0, 0), Layout(32, 0)]).value;
    assert composed[1] == composed[2] == composed[0];
    assert composed == [Layout(16, 0), Layout(16, 0), Layout(16, 0)];
  }

  /**
   * A concrete algorithm with descriptor size 32 and extra size 8: a
   * decorator requesting the same sizes is accepted and changes nothing;
   * one requesting descriptor size 16, or extra size 0 beside the
   * matching descriptor size, is refused; one left at the default
   * sizes of 0 is refused too, since 0 is compared as a size and not read
   * as "inherit".
   */
  lemma CompositionScenario()
    ensures Compose(Layout(32, 8), [Layout(32, 8)]) == Success([Layout(32, 8), Layout(32, 8)])
    ensures Compose(Layout(16, 8), [Layout(32, 8)]) == Failure(InvalidComposition)
    ensures Compose(Layout(0, 0), [Layout(32, 8)]) == Failure(InvalidComposition)
    ensures Compose(Layout(32, 0), [Layout(32, 8)]) == Failure(InvalidComposition)
    ensures Compose(Layout(0, 0), [Layout(0, 0)]).Success?
  {
    var composed := Compose(Layout(32, 8), [Layout(32, 8)]).value;
    assert composed[1] == composed[0];
    assert composed == [Layout(32, 8), Layout(32, 8)];
  }
}

# Feature-algorithm decorator and keypoint encoding constants

This project is a Dafny model of two pieces of a GPU keypoint engine:

- The size negotiation done by `FeatureAlgorithmDecorator`. A feature algorithm stores two byte sizes, `descriptorSize` and `extraSize`. A decorator wraps one feature algorithm, which may itself be a decorator. The chain ends at a concrete algorithm.
  - The decorator's constructor refuses to shrink the wrapped algorithm's sizes. It then writes its own sizes onto that algorithm.
  - Its setters write the decorator's own field first and then call the same setter on the wrapped algorithm, so a write reaches every node of the chain.
  - `download` checks that the decorator and the wrapped algorithm still agree, then passes the call on.
  - `run` only passes the call on.
- The process-wide constants of the keypoint encoding: pyramid bounds, fixed-point resolution, the maximum texture length, the keypoint record sizes and the flag bits.

Files:

- `globals.dfy`, module `Globals`: the constants. A small function models JavaScript's `<<`. Lemmas give each derived constant's exact value, show that a fixed-point coordinate fits in 16 bits below the two reserved integer codes, decode an encoded coordinate back to its parts, and show that the flag bits are disjoint.
- `keypoint_layout.dfy`, module `KeypointLayout`: the value-level view of a chain as the sequence of its nodes' layouts, head first. It contains:
  - the record size;
  - `WithExtraSize` and `WithDescriptorSize`, the effect of a cascading setter on that sequence;
  - `Compose`, the effect of the decorator constructor, including its refusal;
  - lemmas about all of these.
- `feature_algorithm_decorator.dfy`, module `FeatureAlgorithmDecorator`: the objects. There is one class, `FeatureAlgorithm`, with mutable `descriptorSize` and `extraSize` fields and a constant `role`. The role is either `Concrete` (a concrete algorithm, whose GPU kernel and keypoint decoder are opaque functions of the arguments and of the node's layout) or `Decorating(decorated)` (a decorator).
  - `Valid()` keeps the chain acyclic through the usual `Repr` footprint.
  - `Layouts()` gives the chain's sizes as a sequence.
  - The setters, the constructor, `Run` and `Download` are proved against the functions of `KeypointLayout`.
  - `TryDecorate` is the constructor together with its checks. It reports a refused composition as `Failure(InvalidComposition)` and writes nothing in that case.

The JavaScript class hierarchy uses dynamic dispatch: the setter called on a wrapped algorithm is that algorithm's own setter. The model keeps this as recursion on `role`. GPU contexts, textures and downloaded feature lists are type parameters. A thrown `Utils.assert` becomes a `Failure` result.

Behaviour of the code worth knowing:

- The default sizes of 0 (`feature-algorithm-decorator.js:40`) are compared as sizes at lines 43-44; nothing reads them as "inherit the wrapped algorithm's sizes". So a decorator left at its defaults is refused whenever the wrapped algorithm has a positive size (`KeypointLayout.CompositionScenario`).
- Over a wrapped algorithm with sizes (32, 8), asking for descriptor size 32 with the default extra size is refused; asking for (32, 8) is accepted and leaves the wrapped sizes as they were.
- The invariant that every node has the same sizes does not survive a direct write to a wrapped algorithm.
  - `download` detects the drift (`FeatureAlgorithmDecorator.TamperingScenario`).
  - `run` checks no sizes: it computes in the layout of the bottom node, whichever that is (`FeatureAlgorithmDecorator.FeatureAlgorithm.Run`).
  - The constructor compares only against the head of the wrapped chain. So wrapping a chain that has drifted can shrink a deeper node (`KeypointLayout.ComposeChecksOnlyTheHead`). On a chain that is in step, composition only grows the sizes (`KeypointLayout.ComposeOnlyGrows`).

## Model

| member | source | states |
|---|---|---|
| `Globals.ShiftLeft` | src/utils/globals.js:48-57 | JavaScript's `1 << n`: the bits are shifted within 32 bits and read back as a signed 32-bit integer, so the result always lies in the int32 range |
| `Globals.PyramidMaxOctavesValue` | src/utils/globals.js:27-30 | the octave bound is twice the level bound minus one, which is 13 |
| `Globals.FixResolutionValue` | src/utils/globals.js:45-48 | `1 << FIX_BITS`, modelled as a 32-bit shift, is 2^FIX_BITS, which is 8 |
| `Globals.MaxTextureLengthValue` | src/utils/globals.js:57 | `(1 << (16 - FIX_BITS)) - 2` is 2^13 - 2, which is 8190 |
| `Globals.FixedPointFits` | src/utils/globals.js:45-57 | a coordinate `i * FIX_RESOLUTION + f` with `0 <= i < MAX_TEXTURE_LENGTH` and `0 <= f < FIX_RESOLUTION` fits in an unsigned 16-bit word; its integer part stays below the two top integer codes of that word, and those codes are exactly MAX_TEXTURE_LENGTH and MAX_TEXTURE_LENGTH + 1 |
| `Globals.DecodeEncodeFixed` | src/utils/globals.js:45-48 | splitting an encoded admissible coordinate by FIX_RESOLUTION gives back its integer part and fractional steps |
| `Globals.FlagsAreBits` | src/utils/globals.js:71-78 | KPF_NONE is 0; KPF_ORIENTED and KPF_DISCARD are the single bits 2^0 and 2^7 of the flags byte; their AND is 0 and their OR is 0x81 |
| `Globals.FlagNoneIsIdentity` | src/utils/globals.js:71-72 | OR with KPF_NONE on either side leaves any flags byte unchanged, and KPF_NONE is never found set |
| `Globals.FlagsIndependent` | src/utils/globals.js:74-78 | OR-ing in one of the two flags sets it and leaves the test for the other flag exactly as it was |
| `KeypointLayout.RecordSizeAligned` | src/utils/globals.js:65-69 | the header size and the largest descriptor size are multiples of 4, so a record with multiple-of-4 extra and descriptor sizes is a multiple of 4 bytes |
| `KeypointLayout.RecordSizeExample` | src/utils/globals.js:69 | with extra size 8 and descriptor size 32 a record is 8 + 8 + 32 = 48 bytes |
| `KeypointLayout.WithExtraSize` | src/core/keypoints/feature-algorithm-decorator.js:103-107 | after the cascade every node of the chain has extra size `bytes` and its old descriptor size; the chain's length is unchanged |
| `KeypointLayout.WithDescriptorSize` | src/core/keypoints/feature-algorithm-decorator.js:122-126 | after the cascade every node of the chain has descriptor size `bytes` and its old extra size; the chain's length is unchanged |
| `KeypointLayout.Compose` | src/core/keypoints/feature-algorithm-decorator.js:40-52 | composition is refused with InvalidComposition exactly when a requested size is below the wrapped algorithm's; otherwise the new chain is one node longer, has the requested layout at its head and is uniform |
| `KeypointLayout.AgreesIffUniform` | src/core/keypoints/feature-algorithm-decorator.js:73-79 | every node agreeing with the node it wraps (what each download checks) holds exactly when the whole chain has one layout |
| `KeypointLayout.UniformCons` | src/core/keypoints/feature-algorithm-decorator.js:75-78 | a chain has one layout exactly when its head equals the next node and the rest has one layout |
| `KeypointLayout.SetterKeepsUniform` | src/core/keypoints/feature-algorithm-decorator.js:103-126 | a setter called on the head of a uniform chain leaves it uniform |
| `KeypointLayout.SettersResynchronise` | src/core/keypoints/feature-algorithm-decorator.js:50-51 | writing both sizes through the head, descriptor size first, gives every node of any chain exactly those sizes |
| `KeypointLayout.SetterLastWriteWins` | src/core/keypoints/feature-algorithm-decorator.js:103-126 | a second call of the same setter overrides the first |
| `KeypointLayout.SettersCommute` | src/core/keypoints/feature-algorithm-decorator.js:103-126 | the two setters write different attributes, so calling them in either order gives the same chain |
| `KeypointLayout.SetterKeepsAlignment` | src/core/keypoints/feature-algorithm-decorator.js:99-126 | a multiple-of-4 argument keeps every node's sizes multiples of 4 |
| `KeypointLayout.DirectWriteBreaksUniform` | src/core/keypoints/feature-algorithm-decorator.js:73-79 | writing a different extra size onto a wrapped node directly leaves the chain without one layout, which download then detects |
| `KeypointLayout.ComposeOnlyGrows` | src/core/keypoints/feature-algorithm-decorator.js:40-51 | composing onto a uniform chain never lowers any node's descriptor or extra size |
| `KeypointLayout.ComposeChecksOnlyTheHead` | src/core/keypoints/feature-algorithm-decorator.js:43-51 | only the wrapped head is compared: over a chain that has drifted (sizes 0 over 32), a request of 16 is accepted and lowers the deeper node to 16 |
| `KeypointLayout.CompositionScenario` | src/core/keypoints/feature-algorithm-decorator.js:40-51 | over sizes (32, 8): requesting (32, 8) succeeds and leaves the wrapped sizes as they were; requesting descriptor size 16 is refused; requesting (32, 0) is refused; the default sizes (0, 0) are refused |
| `FeatureAlgorithmDecorator.FeatureAlgorithm.Create` | src/core/keypoints/feature-algorithm-decorator.js:46 | stands in for the base constructor that `super(descriptorSize, extraSize)` calls: a valid one-node chain of a concrete algorithm with exactly the given sizes, kernel and decoder |
| `FeatureAlgorithmDecorator.FeatureAlgorithm.Decorate` | src/core/keypoints/feature-algorithm-decorator.js:40-52 | the constructor keeps the wrapped object, and the new chain's layouts are those `Compose` gives for the old wrapped chain: every node, the decorator and the wrapped algorithm included, ends up with the requested sizes; in particular the wrapped algorithm's own fields hold the requested sizes; the kernel and decoder at the bottom of the chain are those of the wrapped chain |
| `FeatureAlgorithmDecorator.TryDecorate` | src/core/keypoints/feature-algorithm-decorator.js:40-52 | a request below either size of the wrapped algorithm fails with InvalidComposition and changes no node; otherwise a fresh, valid decorator wraps exactly the given algorithm, with the layouts `Compose` gives and the wrapped chain's kernel and decoder |
| `FeatureAlgorithmDecorator.FeatureAlgorithm.DecoratedAlgorithm` | src/core/keypoints/feature-algorithm-decorator.js:85-88 | returns the object held in the constant `role` (set once by the constructor, never replaced), a valid chain strictly inside this one whose layouts are the rest of this chain's |
| `FeatureAlgorithmDecorator.FeatureAlgorithm.ExtraSize` | src/core/keypoints/feature-algorithm-decorator.js:94-97 | the getter returns this node's stored extra size and reads no other object |
| `FeatureAlgorithmDecorator.FeatureAlgorithm.DescriptorSize` | src/core/keypoints/feature-algorithm-decorator.js:113-116 | the getter returns this node's stored descriptor size and reads no other object |
| `FeatureAlgorithmDecorator.FeatureAlgorithm.SetExtraSize` | src/core/keypoints/feature-algorithm-decorator.js:103-107 | the setter changes only extra-size fields of the chain, and the new layouts are the `WithExtraSize` cascade of the old ones: every node reports the new extra size and keeps its descriptor size; the kernel and decoder are unchanged |
| `FeatureAlgorithmDecorator.FeatureAlgorithm.SetDescriptorSize` | src/core/keypoints/feature-algorithm-decorator.js:122-126 | the setter changes only descriptor-size fields of the chain, and the new layouts are the `WithDescriptorSize` cascade of the old ones: every node reports the new descriptor size and keeps its extra size; the kernel and decoder are unchanged |
| `FeatureAlgorithmDecorator.FeatureAlgorithm.Run` | src/core/keypoints/feature-algorithm-decorator.js:61-64 | the result is exactly what the concrete algorithm at the bottom of the chain computes from the same arguments in that bottom node's layout, with no size check; in a chain that is in step, that layout is this node's |
| `FeatureAlgorithmDecorator.FeatureAlgorithm.Download` | src/core/keypoints/feature-algorithm-decorator.js:73-79 | fails with LayoutMismatch exactly when the chain does not have one layout; otherwise it returns the concrete algorithm's decoding with the flags passed on unchanged and this node's layout |
| `FeatureAlgorithmDecorator.FeatureAlgorithm.DecoratorDelegates` | src/core/keypoints/feature-algorithm-decorator.js:61-79 | a decorator runs what its wrapped algorithm runs, in the same bottom layout; when their sizes agree, its download succeeds exactly when the wrapped one does, with the same decoder |
| `FeatureAlgorithmDecorator.TamperingScenario` | src/core/keypoints/feature-algorithm-decorator.js:73-107 | after extra size 16 is written directly onto the wrapped algorithm, the decorator still reports 8 and its download fails with LayoutMismatch; after 16 is set through the decorator, the download succeeds with layout (32, 16) |

## Left out

- The base class `FeatureAlgorithm` (src/core/keypoints/feature-algorithm.js) is not part of this model. `FeatureAlgorithm.Create` stands in for a concrete algorithm. Its sizes are plain stored fields, and setting one is a plain store. Any check the base constructor or base setters might make (multiples of 4, the MAX_DESCRIPTOR_SIZE bound) is not modelled.
- The `instanceof FeatureAlgorithm` assertion (feature-algorithm-decorator.js:42) needs no model: the parameter's static type already guarantees it.
- GPU work, texture readback and the asynchronous `SpeedyPromise`: a concrete algorithm's `run` and `download` are opaque functions it is built with. Download returns its result directly, with no future. Decoding into `SpeedyFeature` objects is inside that opaque decoder.
- Subclasses that override `run` to add GPU work: only the base decorator's pass-through is modelled.
- Default arguments: callers pass every argument. The constructor's default sizes of 0 appear in `KeypointLayout.CompositionScenario`. The `flags = 0` default of `download` is left out.
- Sizes are unbounded integers. JavaScript numbers that are not integers are not modelled.
- `LOG2_PYRAMID_MAX_SCALE` (globals.js:36) is left out because it is computed with the floating-point `Math.log2`. `FIX_RESOLUTION` is stored as a float in the source and modelled as the integer 8.
- `Globals.ShiftLeft` takes shift counts below 32 only. JavaScript would take the count modulo 32; the constants here shift by 3 and 13.
- Aliasing: nothing stops two decorators from wrapping the same algorithm, and `Valid()` does not forbid it. Suppose a second decorator is built over an algorithm that the first one already wraps, with different sizes. The first decorator's own stored sizes stay as they were, but its `Layouts()` shows the drift and its `Download` reports it. No contract states what one decorator's methods do to another decorator's chain.
- The flag constants are modelled as `bv8`, the flags byte of the keypoint header, rather than as JavaScript numbers.

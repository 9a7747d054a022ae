# quantized-training, modelled in Dafny

This project models the core of *quantized-training*, a PyTorch library for
simulated low-precision training. The model covers five pieces of the library:

- **Config string parser** (`training_args.dfy`). This is
  `QuantizationConfig.from_str`, which reads the `dtype[,key=value]*` mini-language.
  It expands abbreviations, fills in the defaults, converts each value to its
  parameter's type and rejects malformed input. `QSpecs` fills in defaults for
  the keys the caller did not supply.
- **Fake-quant numeric core** (`fake_quantize.dfy`, `lookup_index.dfy`,
  `amax_observer.dfy`). This covers:
  - the dtype-name dispatch of `_get_fake_quant_fn`, including the `max_norm`
    arithmetic of the generic `fp<n>_e<e>m<m>` branch;
  - the choice of reduction axes in `_get_amax`;
  - the 16-bit lookup index of `_quantize`, with its sticky low bit;
  - the amax-history and scale state machine of
    `FusedAmaxObsFakeQuantFunction.forward`, with the lazy buffer allocation of
    `FusedAmaxObsFakeQuantize`. This is a class holding `array` buffers that
    its methods update in place.
- **Chain-fusion pass** (`codegen.dfy`). `ShapeProp.transform` grows
  single-consumer chains of `call_function` nodes and replaces each chain with
  one `call_module` node. The node's arguments are bound with a `placeholder`
  marker. `FusedOperations.forward` executes a chain, and `gen_code` emits one
  operation per fused or plain call.
  - The graph is an arena: a map from node ids to nodes, plus the node list.
  - `ShapeProp` and `FusedOperations` are classes whose methods carry the
    loops of the source.
- **Hook-attachment rules** (`quantize.dfy`). This covers:
  - `_parse_quantized_ops` and `propagate_config`;
  - the `prepare` tree walk, with its op-fusion exclusion, the residual
    predicate and post-order traversal;
  - `swap_module`/`_convert` precedence;
  - the `_observer_pre_hook` closure, which is a class with its `module_dict`.

  Module trees are a datatype of kind-tagged modules with named children.
- **Observer insertion for exported graphs** (`quantize_fx.dfy`). This covers:
  - the forward/backward dtype split;
  - the `node_list` built from the operator table;
  - `_quantize_weight`;
  - `prepare_pt2e` with `_insert_obs_or_fq`, as a `GraphModule` class over
    the same node arena.

Shared pieces live in `wrappers.dfy` (`Option`, `Result`), `numbers.dfy`,
`strings.dfy` and `attr_names.dfy`. `numbers.dfy` holds `Num`, a real or a
non-finite value, round-half-even and powers of two. `strings.dfy` holds ASCII
lower-casing, `split`, decimal digits and the `int()`/`float()` parsers.
`attr_names.dfy` holds torch's `get_new_attr_name_with_prefix`, which both
the fusion pass and the observer insertion use to name new submodules.

The tables the source imports from modules outside this model are parameters
of the functions that use them:

- the category → module-class table;
- the operator-pattern table;
- the gemm/vector/nop target tables;
- `map_operation`;
- the custom and QAT module mappings.

Throughout, a stateful operation is a method proved against a function. The
function is the specification, and the lemmas about it state what the source
promises.

## Model

| member | source | states |
|---|---|---|
| TrainingArgs.ParseQScheme | src/quantized_training/training_args.py:27-30 | Only the three scheme names `per_tensor`, `per_channel`, `per_vector` parse, each to the scheme of that name. |
| TrainingArgs.ParamOf | src/quantized_training/training_args.py:51-58 | A key is a parameter exactly when it is one of the six parameter names, and it maps to the parameter of that name. |
| TrainingArgs.Convert | src/quantized_training/training_args.py:116 | dtype is kept as text. qscheme converts exactly when the text is a scheme's name, and gives that scheme. quant_max converts exactly when `float()` accepts the text, and gives its value. The three int keys convert exactly when `int()` accepts it, and give the integer. A failure reports the key and the text. |
| TrainingArgs.ConvertRoundTrip | src/quantized_training/training_args.py:116 | Converting a scheme's own name gives the scheme back. A decimal numeral for quant_max gives its value as a float, and an integer's decimal text for an int key gives the integer. |
| TrainingArgs.ParseFieldCases | src/quantized_training/training_args.py:112-116 | A field that does not split on '=' into exactly two parts is malformed. After abbreviation expansion, a key that is not a parameter name is an unknown argument. Otherwise the field is the expanded key with its converted value. |
| TrainingArgs.Defaults | src/quantized_training/training_args.py:101-108 | The defaults give a value to every one of the six parameters. |
| TrainingArgs.FirstFailure | src/quantized_training/training_args.py:111-116 | No error is reported exactly when every field parsed. |
| TrainingArgs.FirstFailureAppend | src/quantized_training/training_args.py:111-116 | Fields that all parsed do not change which later error is reported. |
| TrainingArgs.FirstBadFieldDecides | src/quantized_training/training_args.py:111-116 | The first field that fails decides the error, whatever follows it. |
| TrainingArgs.FromStr | src/quantized_training/training_args.py:94-124 | The loop over the fields, with its `params` map, returns exactly the specification result: lower-case, split, defaults, fields applied in order, then the quant_max check. |
| TrainingArgs.TracksAll | src/quantized_training/training_args.py:111-124 | A params map that has absorbed every field in order finishes with the specification result. |
| TrainingArgs.FirstFieldIsDtype | src/quantized_training/training_args.py:97-102 | Without a `dtype=` field, the dtype of the result is the first field. |
| TrainingArgs.DtypeOnlyGivesDefaults | src/quantized_training/training_args.py:97-108 | A string without ',' gives its lower-cased self as dtype, no qscheme and the table quant_max. It also gives history length 50, channel axis 1 and block size 32. |
| TrainingArgs.LaterFieldWins | src/quantized_training/training_args.py:111-116 | A later field for a key overrides every earlier one, and leaves the other keys alone. |
| TrainingArgs.NeverSet | src/quantized_training/training_args.py:111-116 | A key that no field names keeps its default. |
| TrainingArgs.DtypeFieldParses | src/quantized_training/training_args.py:112-116 | The abbreviation `dt=int8` sets dtype to `int8`. |
| TrainingArgs.QuantMaxNotRecomputed | src/quantized_training/training_args.py:104 | Overriding the dtype with a field keeps the quant_max looked up from the first field. |
| TrainingArgs.SchemeNeedsQuantMax | src/quantized_training/training_args.py:101-122 | When every field parsed, the call fails exactly when qscheme ends up set and quant_max ends up None, and the error names that scheme. quant_max is None when the first field has no table entry and no field sets it. |
| TrainingArgs.OutcomeOfOne | src/quantized_training/training_args.py:101-124 | One parsed field gives the defaults with that field applied, subject to the quant_max check. |
| TrainingArgs.QSpecs.constructor | src/quantized_training/training_args.py:135-159 | Supplied keys keep their values. Missing keys that have a default get it, and no other key appears. |
| Numbers.RoundHalfEven | src/quantized_training/quantize_fx.py:21 | The result is within one half of the input, and is even on a tie. |
| Numbers.Clamp | src/quantized_training/fake_quantize.py:55 | With ordered bounds the result is x when x is inside, lo below them and hi above them. With lo > hi it is hi, as `torch.clamp` returns. |
| Numbers.FloorLog2 | src/quantized_training/fake_quantize.py:181 | The result k satisfies 2^k <= x < 2^(k+1). |
| Numbers.FloorLog2Unique | src/quantized_training/fake_quantize.py:181 | The exponent bracketing x is the only one that does. |
| Numbers.SnapPow2 | src/quantized_training/fake_quantize.py:180-181 | A positive scale is snapped to the power of two at or below it. Zero stays zero, and a negative or non-finite scale becomes non-finite. |
| Numbers.SnapPow2OfPow2 | src/quantized_training/fake_quantize.py:180-181 | Snapping a power of two returns it unchanged. |
| Numbers.MaxNum | src/quantized_training/fake_quantize.py:170 | The max is non-finite iff an operand is non-finite; otherwise it is the larger operand. |
| Numbers.DivNum | src/quantized_training/fake_quantize.py:177 | The quotient is finite iff both operands are finite and the divisor is nonzero, and it then times the divisor gives the dividend. |
| Strings.Lower | src/quantized_training/training_args.py:97 | Lower-casing keeps the length and leaves no ASCII upper-case letter. Every other character is unchanged. |
| Strings.LowerIdempotent | src/quantized_training/training_args.py:97 | Lower-casing twice is lower-casing once. |
| Strings.JoinSplit | src/quantized_training/training_args.py:98 | Joining the parts of a split with the separator gives the string back. |
| Strings.SplitJoin | src/quantized_training/training_args.py:98 | Splitting separator-free parts joined by the separator gives the parts back. |
| Strings.SplitConcat | src/quantized_training/quantize.py:102 | Splitting `a,b` is splitting `a` followed by splitting `b`. |
| Strings.IntRoundTrip | src/quantized_training/training_args.py:116 | Parsing the decimal text of an integer gives the integer back. |
| Strings.FloatOfNatString | src/quantized_training/training_args.py:116 | A decimal numeral parses as a float to its value. |
| Strings.Strip | src/quantized_training/training_args.py:116 | The text `int()` and `float()` read has no blank at either end. |
| Strings.StripSurrounded | src/quantized_training/training_args.py:116 | Stripping removes exactly the blanks around a text that starts and ends with a non-blank. |
| Strings.ParseNat | src/quantized_training/training_args.py:116 | An unsigned integer text is accepted exactly when it is digit groups joined by single underscores. |
| Strings.ParseIntStrips | src/quantized_training/training_args.py:116 | `int()` ignores blanks around the number. |
| Strings.ParseIntGrouped | src/quantized_training/training_args.py:116 | `int(" 1_000")` is 1000. |
| Strings.ParseFloatStrips | src/quantized_training/training_args.py:116 | `float()` ignores blanks around the number. |
| Strings.ParseFloatGrouped | src/quantized_training/training_args.py:116 | `float("1_000")` is 1000.0. |
| LookupIndex.Bfloat16IndexIsPattern | src/quantized_training/fake_quantize.py:76-77 | A bfloat16 input's index is its own 16-bit pattern. |
| LookupIndex.Binary32IndexHalves | src/quantized_training/fake_quantize.py:79-81 | A binary32 input's index is its upper 16 bits when the low 16 bits are zero. Otherwise it is those bits with the lowest bit forced to 1. The index always lies in [0, 65535]. |
| LookupIndex.Binary32IndexKeepsSignAndExponent | src/quantized_training/fake_quantize.py:79-81 | The sticky bit never changes the sign or exponent field: the index read as bfloat16 has the same sign and exponent as the binary32 input. |
| LookupIndex.LookupIndex | src/quantized_training/fake_quantize.py:75-81 | Every index is below 65536, so the table lookup is in range. |
| LookupIndex.Quantize | src/quantized_training/fake_quantize.py:82 | The quantized value is one of the table's values. |
| LookupIndex.WideningKeepsIndex | src/quantized_training/fake_quantize.py:76-81 | A bfloat16 widened to binary32 gets the same index as the bfloat16 itself. |
| FakeQuantize.MatchPositExact | src/quantized_training/fake_quantize.py:33-34 | `posit<n>_<es>` with decimal n and es matches and captures their values. Any match has that shape. |
| FakeQuantize.MatchPositComplete | src/quantized_training/fake_quantize.py:33-34 | Every `posit<n>_<es>` spelling is matched with its two numbers. |
| FakeQuantize.MatchFp8 | src/quantized_training/fake_quantize.py:37-39 | The fp8 pattern matches exactly `e4m3`, `e5m2` and their `fp8.` forms, in any case. The e4m3 spellings give E4M3 and the e5m2 spellings give E5M2. |
| FakeQuantize.MatchFpComplete | src/quantized_training/fake_quantize.py:41-42 | Every `fp<n>_e<e>m<m>` spelling is matched and captures n, e and m. |
| FakeQuantize.MatchFpSound | src/quantized_training/fake_quantize.py:41-42 | Every match of the generic pattern is an `fp<n>_e<e>m<m>` spelling, and captures the values of its three digit runs. |
| FakeQuantize.FpNameCaptures | src/quantized_training/fake_quantize.py:41-42 | The canonical spelling of (n, e, m) is matched back to (n, e, m). |
| FakeQuantize.FpNameNotFp8 | src/quantized_training/fake_quantize.py:37-41 | No `fp<n>_…` spelling is caught by the earlier fp8 branch. |
| FakeQuantize.FpDispatch | src/quantized_training/fake_quantize.py:41-50 | `fp<n>_e<e>m<m>` dispatches to the generic rounding. It fails when n != e + m + 1, and otherwise uses m + 2 mantissa bits, e exponent bits and the computed max_norm. |
| FakeQuantize.MaxNorm | src/quantized_training/fake_quantize.py:45-49 | max_norm is (2^(m+1)−1)/2^m times 2^emax when e >= 1. With e = 0 it is that factor times √2, since the source's `emax` is then ½. For `fp8_e4m3` the factor is 1.75. |
| FakeQuantize.MaxNormIsLargestNormal | src/quantized_training/fake_quantize.py:45-49 | Except for `fp8_e4m3`, max_norm is the largest normal 2^emax·(2 − 2^−m). With e = 0 it is (2 − 2^−m)·√2. |
| FakeQuantize.E4M3MatchesTable | src/quantized_training/fake_quantize.py:46-49 | `fp8_e4m3` dispatches with max_norm 448, which is the table quant_max. |
| FakeQuantize.E5M2MatchesTable | src/quantized_training/fake_quantize.py:45-47 | `fp8_e5m2` dispatches with max_norm 57344, which is the table quant_max. |
| FakeQuantize.E2M1MatchesTable | src/quantized_training/fake_quantize.py:45-47 | `fp4_e2m1` dispatches with max_norm 6, which is the table quant_max. |
| FakeQuantize.IntQuantize | src/quantized_training/fake_quantize.py:55 | The rounded value is returned when it lies within the bounds, and the nearer bound when it does not. With ordered bounds the result lies within them. With integral bounds, an x inside them moves by at most one half. |
| FakeQuantize.IntDispatch | src/quantized_training/fake_quantize.py:52-55 | `int<n>` dispatches to rounding clamped to [−2^(n−1), 2^(n−1)−1]. |
| FakeQuantize.MatchIntExact | src/quantized_training/fake_quantize.py:52-53 | The int pattern matches exactly `int<digits>`, and captures the digits' value. |
| FakeQuantize.IntRoundInRange | src/quantized_training/fake_quantize.py:54-55 | The `int<n>` output always lies in [−2^(n−1), 2^(n−1)−1]. |
| FakeQuantize.IntRangeMatchesTable | src/quantized_training/fake_quantize.py:52-55 | int8 and int4 clamp to [−128, 127] and [−8, 7], matching the table quant_max 127 and 7. |
| FakeQuantize.Fp8Spellings | src/quantized_training/fake_quantize.py:37-39 | `E4M3` and `fp8.e5m2` select the two fp8 functions, so the match is case-insensitive. |
| FakeQuantize.UnrecognizedDtype | src/quantized_training/fake_quantize.py:33-57 | The dispatch raises the unrecognised-dtype error exactly when the name is not a posit, fp8, fp or int spelling. |
| FakeQuantize.Bf16Unrecognized | src/quantized_training/fake_quantize.py:57 | `bf16` is not recognised. |
| FakeQuantize.AxesExcept | src/quantized_training/fake_quantize.py:66 | The axes are exactly 0..ndim−1 without the channel axis, in increasing order. |
| FakeQuantize.AxesExceptCount | src/quantized_training/fake_quantize.py:66 | One axis fewer than ndim is reduced when the channel axis is in range. |
| FakeQuantize.AmaxReduction | src/quantized_training/fake_quantize.py:60-72 | Per-tensor reduces over all axes and per-vector over (0, ch_axis). Any other scheme raises. |
| FakeQuantize.PerChannelKeepsChannel | src/quantized_training/fake_quantize.py:63-67 | A negative channel axis is normalised by adding ndim, and every other axis is reduced. |
| AmaxObserver.SeqMax | src/quantized_training/fake_quantize.py:170 | The max over the history is non-finite iff some entry is. Otherwise it bounds every entry and is one of them. |
| AmaxObserver.GroupAmax | src/quantized_training/fake_quantize.py:62 | A group's amax bounds the absolute value of each element and is attained. It is non-finite iff an element is. |
| AmaxObserver.Amaxes | src/quantized_training/fake_quantize.py:175 | One amax per group. |
| AmaxObserver.HistoryMax | src/quantized_training/fake_quantize.py:170 | One maximum per group over all history rows. |
| AmaxObserver.Observe | src/quantized_training/fake_quantize.py:172-175 | The history keeps its length and slot 0 holds the new observation. |
| AmaxObserver.ObserveDropsSlotOne | src/quantized_training/fake_quantize.py:172-175 | The only value dropped is the old slot 1, and the old slot 0 moves to the last slot. |
| AmaxObserver.ObserveLayout | src/quantized_training/fake_quantize.py:172-175 | Rotating and writing a history laid out from a window of observations gives the layout of the window shifted by one. |
| AmaxObserver.WindowSnoc | src/quantized_training/fake_quantize.py:172-175 | Observing one more value drops the oldest observation of the window and appends the new one. |
| AmaxObserver.LayoutMax | src/quantized_training/fake_quantize.py:170 | The per-group max over the laid-out history is the max over the window. |
| AmaxObserver.ScaleStep | src/quantized_training/fake_quantize.py:177-181 | The scale is amax/quant_max when amax is finite and positive, and the previous scale otherwise. With `force_scale_power_of_two`, that value is then snapped to a power of two. |
| AmaxObserver.ScaleStaysPositive | src/quantized_training/fake_quantize.py:177-181 | A positive finite scale stays positive and finite when quant_max > 0, with or without power-of-two snapping. |
| AmaxObserver.DegenerateAmaxKeepsScale | src/quantized_training/fake_quantize.py:178-181 | A zero, negative or non-finite amax leaves a power-of-two (or unsnapped) previous scale unchanged. |
| AmaxObserver.NewScale | src/quantized_training/fake_quantize.py:177-182 | One scale per group. |
| AmaxObserver.Run | src/quantized_training/fake_quantize.py:169-182 | After any sequence of observations, the history keeps its length and has one entry per group, with one scale per group. |
| AmaxObserver.RunSnoc | src/quantized_training/fake_quantize.py:169-182 | One more observation is one more step. |
| AmaxObserver.RunIsWindow | src/quantized_training/fake_quantize.py:169-182 | The history after any run is the window of the last H observations (zero-padded), and its max is the window's max. |
| AmaxObserver.FirstCallKeepsScale | src/quantized_training/fake_quantize.py:292-298 | On the first observed call the history is all zeros, so the scale stays at ones. |
| AmaxObserver.FourObservations | src/quantized_training/fake_quantize.py:169-182 | Observing 2, 4, 8, 16 with history length 4 and quant_max 8 leaves scale 1.0. |
| AmaxObserver.FakeQuantValue | src/quantized_training/fake_quantize.py:184-188 | A fake-quantized value is a table value times the scale. |
| AmaxObserver.FakeQuantOutput | src/quantized_training/fake_quantize.py:184-188 | The output has the input's shape, and is the input itself when fake quant is disabled. |
| AmaxObserver.AmaxInputError | src/quantized_training/fake_quantize.py:60-72 | `_get_amax` accepts an input exactly when the scheme is per-tensor, or per-channel/per-vector with a channel axis, and the input has at least one group and no empty group. |
| AmaxObserver.Roll | src/quantized_training/fake_quantize.py:172-174 | With more than one row, slot i takes old slot i + 1 and the last slot takes old slot 0. Otherwise nothing moves. |
| AmaxObserver.ObserveIsRollThenWrite | src/quantized_training/fake_quantize.py:172-175 | The observation is the roll followed by the write of slot 0, and both keep the buffer rectangular. |
| AmaxObserver.ObservedCallSteps | src/quantized_training/fake_quantize.py:169-182 | An observed call that raises nothing is exactly one observer step from the allocated buffers. |
| AmaxObserver.RaisesAfterRoll | src/quantized_training/fake_quantize.py:169-177 | Once allocated, a call that raises in the observer branch keeps the scale. A bad input or a group-count mismatch leaves the history rolled. A missing quant_max leaves it rolled and written. |
| AmaxObserver.DisabledKeepsBuffers | src/quantized_training/fake_quantize.py:158-188 | With the observer off and the history allocated, any input passes and the buffers are unchanged, even an empty input. |
| AmaxObserver.DisabledStillAllocates | src/quantized_training/fake_quantize.py:292-298 | With the observer off, the first call with a scheme still allocates H zero rows and a scale of ones. |
| AmaxObserver.FakeQuantStep | src/quantized_training/fake_quantize.py:184-188 | The fake quantization fails exactly when it is enabled and the scale neither has one entry nor one per group. Otherwise it gives the fake-quantized output. |
| AmaxObserver.RollRows | src/quantized_training/fake_quantize.py:172-174 | The in-place roll leaves the history buffer equal to the rotated history. |
| AmaxObserver.CopyInto | src/quantized_training/fake_quantize.py:182 | The buffer receives exactly the new scale. |
| AmaxObserver.AmaxFakeQuantize.constructor | src/quantized_training/fake_quantize.py:214-247 | The constructor stores its parameters, enables the observer iff a qscheme is given, and enables fake quant. It starts with an empty history and scale [1.0]. |
| AmaxObserver.AmaxFakeQuantize.EnableObserver | src/quantized_training/fake_quantize.py:241 | Sets the observer flag. |
| AmaxObserver.AmaxFakeQuantize.ObserveAllocated | src/quantized_training/fake_quantize.py:169-182 | On allocated buffers, the in-place observer branch raises the specified error and leaves the specified buffers. A clean call logs its amaxes, and the buffers stay equal to the state after the log. |
| AmaxObserver.AmaxFakeQuantize.Allocate | src/quantized_training/fake_quantize.py:292-298 | An empty history is replaced by H zero rows, with a scale of ones, one entry per group. |
| AmaxObserver.AmaxFakeQuantize.ObserveStep | src/quantized_training/fake_quantize.py:283-298 | The error raised and the buffers left behind are exactly those `AmaxObserver.StepOutcome` gives. This holds for the microscaling branch, the lazy allocation, the per-vector argument checks and the observer branch, including a call that raises after the history was rolled or written (the observer branch is at lines 158-182 of the same file). A clean observed call logs its amaxes. |
| AmaxObserver.AmaxFakeQuantize.Forward | src/quantized_training/fake_quantize.py:275-310 | The buffers end as `AmaxObserver.StepOutcome` says, whether the call raises or not. An error from the observer part is returned. Otherwise the result is the fake quantization on the new scale, or the shape error it raises. |
| Codegen.ArgComputedIff | src/quantized_training/codegen.py:39-42 | An argument is computed iff every node it checks, through nested lists, has been visited. A non-node value checks nothing. |
| Codegen.Users | src/quantized_training/codegen.py:115-116 | The users of a node are exactly the listed nodes whose arguments mention it. |
| Codegen.ChainFrom | src/quantized_training/codegen.py:111-131 | The chain starts at the node, has no repeats, and each member is the sole user of the previous one and joins under the rule. |
| Codegen.GrowChain | src/quantized_training/codegen.py:115-131 | The chain only grows, keeps its first node, stays linked, and stops where the next node may not join. |
| Codegen.Placeheld | src/quantized_training/codegen.py:130 | Each top-level occurrence of the previous member becomes the placeholder marker, and everything else is kept. |
| Codegen.BoundArgs | src/quantized_training/codegen.py:112-130 | One argument list per chain member. |
| Codegen.ShapeProp.GrowChainLoop | src/quantized_training/codegen.py:111-131 | The while loop builds exactly the specified chain and its placeholder-bound arguments. |
| Codegen.FuseFails | src/quantized_training/codegen.py:144-146 | Fusion fails exactly when the redirected fused node still uses a member that is about to be erased. |
| Codegen.FusedName | src/quantized_training/codegen.py:137-138 | The fused module's name is the least `fused_op_<i>` that is not a module name yet. |
| Codegen.FusePreservesWellFormed | src/quantized_training/codegen.py:135-147 | A successful fusion keeps the graph well formed: a distinct node list, and all references to live nodes. |
| Codegen.FuseShrinks | src/quantized_training/codegen.py:141-146 | Fusing k nodes shortens the node list by k − 1. |
| Codegen.FuseRedirectsUses | src/quantized_training/codegen.py:144 | Former users of the last member now use the fused node, and other nodes are unchanged. No node mentions an erased member. |
| Codegen.FuseTakesFirstPlace | src/quantized_training/codegen.py:141-143 | The fused node stands where the first member stood, between the same surviving neighbours. |
| Codegen.FuseRegisters | src/quantized_training/codegen.py:135-143 | The fused module is registered under a name that was free, with the members in chain order. The new call_module node targets it, and other modules are untouched. |
| Codegen.NewOrderMembers | src/quantized_training/codegen.py:141-146 | The new node list is the old one without the chain, plus the new node, with no repeats. |
| Codegen.Visit | src/quantized_training/codegen.py:107-147 | Each step of the pass keeps the graph well formed. |
| Codegen.VisitEffect | src/quantized_training/codegen.py:107-147 | A step adds to the visited set and either changes nothing or fuses one chain, shortening the node list. A step that succeeds leaves its node visited or erased. |
| Codegen.RunPass | src/quantized_training/codegen.py:105-147 | The whole pass keeps the graph well formed. |
| Codegen.RunPassEffect | src/quantized_training/codegen.py:105-147 | Node count plus fused modules never grows, and no old node reappears. A pass without error visits every surviving node of its snapshot. |
| Codegen.FailureStops | src/quantized_training/codegen.py:146 | After the first failing erase, later nodes change nothing. |
| Codegen.ShapeProp.FuseChain | src/quantized_training/codegen.py:135-147 | The in-place fusion yields the specified graph, or reports the erase error and leaves the graph as it was. |
| Codegen.ShapeProp.VisitNode | src/quantized_training/codegen.py:107-147 | One loop iteration is exactly one specified step. |
| Codegen.ShapeProp.Transform | src/quantized_training/codegen.py:105-149 | The loop over the node list yields the specified pass result and error. |
| Codegen.Substitute | src/quantized_training/codegen.py:30 | Each placeholder argument becomes the previous result, and the others are kept. |
| Codegen.FirstFailure | src/quantized_training/codegen.py:28-31 | The first member that is not a call_function, or whose argument or keyword list is missing. |
| Codegen.RunMembersChains | src/quantized_training/codegen.py:25-33 | Each member is called with the previous member's result in place of the placeholder, and the result is the last call's value. |
| Codegen.FusedOperations.Forward | src/quantized_training/codegen.py:25-33 | Runs members until the first failure. It records their bound arguments, returns the last result, and otherwise reports the failing member and why. |
| Codegen.OpOf | src/quantized_training/codegen.py:169-176 | A fused call_module yields its member list, and a call_function a one-member operation with its arguments. Other ops yield nothing, and a call_module whose target is not a module fails. |
| Codegen.Operations | src/quantized_training/codegen.py:151-162 | At most one operation per node. |
| Codegen.OperationsAppend | src/quantized_training/codegen.py:151-162 | Operations of two node lists concatenate, and an early failure is kept. |
| Codegen.NoCallsNoOperations | src/quantized_training/codegen.py:151-162 | A node list with no calls yields no operations. |
| Codegen.FilterMap | src/quantized_training/codegen.py:177-178 | Unmapped operations are skipped, so at most one param per operation. |
| Codegen.EmitIsMappedOperations | src/quantized_training/codegen.py:164-179 | Code generation fails exactly when operation collection fails. Otherwise it is the mapped operations in graph order with unmapped ones skipped. |
| Codegen.ShapeProp.GenCode | src/quantized_training/codegen.py:164-179 | The emission loop yields exactly the specified params. |
| Quantize.ParseQuantizedOps | src/quantized_training/quantize.py:101-108 | None gives no classes. Otherwise the call fails iff a lower-cased name is not a category, listing exactly the unknown names. Success gives exactly the union of the named categories' classes. |
| Quantize.ParseIgnoresCase | src/quantized_training/quantize.py:102 | The op list is read case-insensitively. |
| Quantize.ParseUnion | src/quantized_training/quantize.py:102-108 | Parsing `a,b` succeeds iff both parse, and gives the union. |
| Quantize.ParseDeduplicates | src/quantized_training/quantize.py:102 | A repeated op list adds nothing. |
| Quantize.PropagateConfigAt | src/quantized_training/quantize.py:39-43 | Every module of the tree, and no other, gets the attribute, and nothing else changes. |
| Quantize.PropagateConfigIdempotent | src/quantized_training/quantize.py:39-43 | Propagating the same attribute twice is propagating it once. |
| Quantize.HooksFor | src/quantized_training/quantize.py:150-167 | An excluded name gets no hook. Otherwise the module gets the forward pre-hook iff its class is in the forward list, the backward pre-hook iff it is in the backward list, and the post-hook iff the residual rule holds. No torch registry is used twice. |
| Quantize.ResidualPrecedence | src/quantized_training/quantize.py:154-158 | Residual means: a residual class, or a residual layer name together with a gemm class. |
| Quantize.UpperCaseResidualSkipsPostHook | src/quantized_training/quantize.py:166 | A backward list spelled `RESIDUAL` selects the residual category but attaches no post-hook, because the substring test is case-sensitive. |
| Quantize.ActivationRole | src/quantized_training/quantize.py:121 | The forward pre-hook takes its quantizer from the `activation` qconfig field. |
| Quantize.ErrorPreRole | src/quantized_training/quantize.py:121 | The backward pre-hook takes its quantizer from the `error` field. |
| Quantize.ErrorPostRole | src/quantized_training/quantize.py:121 | The backward post-hook takes its quantizer from the `error` field. |
| Quantize.RegisterAll | src/quantized_training/quantize.py:130-138 | Registering hooks appends them to the hook list and adds an empty module dict per hook. The rest of the module is unchanged. |
| Quantize.AddObserverAt | src/quantized_training/quantize.py:169-180 | The tree keeps its shape and names. Each module the walk reaches (not below a fused module) gets the hooks for its qualified name. It also gets an empty module dict per hook, kept in `processes` beside the hook list. Every other module is unchanged. |
| Quantize.VisitOrderCovers | src/quantized_training/quantize.py:169-180 | Every reached module's qualified name is visited. |
| Quantize.RootVisitedLast | src/quantized_training/quantize.py:174-180 | The walk visits the children in order, then the module itself. |
| Quantize.Prepare | src/quantized_training/quantize.py:140-183 | An unknown op in the forward list, then in the backward list, is reported. Otherwise the walk's result is returned. |
| Quantize.PrepareWithoutOps | src/quantized_training/quantize.py:140-183 | With no op lists, prepare changes nothing. |
| Quantize.SwapModule | src/quantized_training/quantize.py:238-250 | A module that qualifies for neither mapping is returned unchanged. |
| Quantize.CustomFirst | src/quantized_training/quantize.py:240-242 | The custom mapping takes precedence. |
| Quantize.NoQConfigNoDefaultSwap | src/quantized_training/quantize.py:243-249 | Without a qconfig, only the custom mapping can swap. |
| Quantize.RehookKeepsHooks | src/quantized_training/quantize.py:251-258 | Each hook registry of a swapped module is the new module's own list followed by the old module's. |
| Quantize.Convert | src/quantized_training/quantize.py:193-225 | Conversion keeps the module's own fields and child names. |
| Quantize.ConvertChild | src/quantized_training/quantize.py:193-225 | Each child keeps its name. A fused or custom-mapped child is swapped as it stands, without converting its subtree; any other child is converted first. A child is swapped through the custom mapping first, then the default mapping, and otherwise stays as converted. |
| Quantize.ConvertStable | src/quantized_training/quantize.py:193-225 | A tree where nothing qualifies for swapping is converted to itself. |
| Quantize.ConvertAfterNoneConfig | src/quantized_training/quantize.py:39-43 | After propagating a None qconfig, conversion without custom mappings changes nothing. |
| Quantize.HookOuts | src/quantized_training/quantize.py:118-127 | One output per input: non-tensors pass through, and tensor i goes through quantizer `str(i)`. |
| Quantize.KeysDistinct | src/quantized_training/quantize.py:120 | Different positions use different quantizer keys. |
| Quantize.AddMissing | src/quantized_training/quantize.py:120-124 | Existing quantizers are kept and only missing keys get a new one. |
| Quantize.CreatedOnce | src/quantized_training/quantize.py:120-124 | A later call at positions already seen creates no quantizer. |
| Quantize.ObserverPreHook.Call | src/quantized_training/quantize.py:115-128 | The loop returns one output per input as specified, and adds quantizers only for new tensor positions. |
| Quantize.ObserverPreHook.CallBackward | src/quantized_training/quantize.py:136-137 | The backward hook acts on the gradient inputs as the pre-hook does. |
| QuantizeFx.Amax | src/quantized_training/quantize_fx.py:18-19 | The weight amax bounds every absolute value and is attained. |
| QuantizeFx.AmaxZero | src/quantized_training/quantize_fx.py:18-19 | The amax is zero iff every weight is zero. |
| QuantizeFx.WeightScale | src/quantized_training/quantize_fx.py:20 | The scale is non-negative, and zero exactly for an all-zero weight. |
| QuantizeFx.QuantizeWeightAsWritten | src/quantized_training/quantize_fx.py:17-21 | The source formula fails only on an empty tensor (the aminmax of nothing) and otherwise keeps the length. |
| QuantizeFx.ZeroWeightBecomesNaN | src/quantized_training/quantize_fx.py:20-21 | As written, a zero weight quantizes to NaN. |
| QuantizeFx.QuantizeWeight | src/quantized_training/quantize_fx.py:17-21 | The corrected quantization keeps the length and produces only finite values. |
| QuantizeFx.ZeroWeightStaysZero | src/quantized_training/quantize_fx.py:17-21 | The corrected quantization maps a zero weight to zeros. |
| QuantizeFx.QuantizeWeightAgrees | src/quantized_training/quantize_fx.py:17-21 | On every weight that is not all zero, the corrected quantization equals the source formula. |
| QuantizeFx.QuantizeWeightLevels | src/quantized_training/quantize_fx.py:21 | Each output is an integer level in [quant_min, quant_max] times the scale. |
| QuantizeFx.QuantizeWeightError | src/quantized_training/quantize_fx.py:17-21 | With the int8 range each output is within half a scale step of its weight. |
| QuantizeFx.QuantizeParameters | src/quantized_training/quantize_fx.py:50-52 | Bias parameters are kept unchanged. Every other parameter becomes its int8 quantization, through the `_quantize_weight` formula of lines 17-21 when `asWritten` holds. The loop fails exactly when such a parameter is empty. |
| QuantizeFx.ZeroParameter | src/quantized_training/quantize_fx.py:17-21 | An all-zero weight parameter comes back as NaNs from the loop as written, and as zeros with the fix. |
| QuantizeFx.QuantizeParametersAgree | src/quantized_training/quantize_fx.py:50-52 | When no quantized weight is all zeros, the loop gives the same parameters with either formula. |
| QuantizeFx.ZeroWeightAllNaN | src/quantized_training/quantize_fx.py:17-21 | As written, every entry of any all-zero weight is NaN. |
| QuantizeFx.SplitDtype | src/quantized_training/quantize_fx.py:25-30 | With a ',', exactly two parts are required and the result is those parts. Otherwise FP8 or FP8.MIXED, in any case, gives (E4M3, E5M2), and anything else is used for both. |
| QuantizeFx.SplitDtypePair | src/quantized_training/quantize_fx.py:25-26 | `fwd,bwd` splits back into fwd and bwd. |
| QuantizeFx.SplitDtypeTooMany | src/quantized_training/quantize_fx.py:26 | Three parts fail to unpack. |
| QuantizeFx.PatternsOf | src/quantized_training/quantize_fx.py:81 | The list is built iff every lower-cased op is in the table. Otherwise the first unknown op is reported. |
| QuantizeFx.PatternsOfAppend | src/quantized_training/quantize_fx.py:81 | The patterns of two op lists concatenate. |
| QuantizeFx.NodeListConcat | src/quantized_training/quantize_fx.py:80-81 | The node list of `a,b` is the node list of `a` followed by that of `b`. |
| QuantizeFx.FreshName | src/quantized_training/quantize_fx.py:120-121 | The observer name is not taken and carries the `activation_pre_process_` prefix. |
| AttrNames.FreshNameLeast | src/quantized_training/quantize_fx.py:120-121 | The fresh name is the prefix followed by the least index whose name is not taken. |
| AttrNames.NewAttrName | src/quantized_training/quantize_fx.py:120-121 | The search loop returns exactly the fresh name. |
| QuantizeFx.InsertObserver | src/quantized_training/quantize_fx.py:119-127 | No node of the list is lost. |
| QuantizeFx.InsertObserverOk | src/quantized_training/quantize_fx.py:119-127 | Inserting an observer keeps the graph well formed and only adds to it. |
| QuantizeFx.InsertObserverPlace | src/quantized_training/quantize_fx.py:124-126 | The observer is placed immediately after its argument node. |
| QuantizeFx.InsertObserverUndo | src/quantized_training/quantize_fx.py:124-126 | Removing the observer gives the old node list back. |
| QuantizeFx.ObserverMentions | src/quantized_training/quantize_fx.py:125-126 | The observer node's only argument is the observed node. |
| QuantizeFx.MatchPattern | src/quantized_training/quantize_fx.py:136-141 | The first pattern whose target is the node's target is chosen, or none when no pattern has it. |
| QuantizeFx.MatchingPattern | src/quantized_training/quantize_fx.py:136-141 | The search loop finds the first matching pattern. |
| QuantizeFx.ObserveArgs | src/quantized_training/quantize_fx.py:144-157 | Argument count is preserved and no node is lost. |
| QuantizeFx.ObserveArgsOk | src/quantized_training/quantize_fx.py:144-157 | Observing arguments keeps the graph well formed, only adds, and keeps every new argument live. |
| QuantizeFx.ObserveArgsPassed | src/quantized_training/quantize_fx.py:146-152 | Arguments the pattern does not select, and non-node arguments, are kept. |
| QuantizeFx.ObserveArgsObservers | src/quantized_training/quantize_fx.py:153-156 | Each selected node argument is replaced by its own fresh observer of that node, in argument order. |
| QuantizeFx.ObserveArgsCount | src/quantized_training/quantize_fx.py:153-156 | One observer node and one module name are added per selected argument. |
| QuantizeFx.VisitFxOk | src/quantized_training/quantize_fx.py:135-159 | One visit keeps the graph well formed, only adds, and changes no other node. |
| QuantizeFx.VisitFxEffect | src/quantized_training/quantize_fx.py:142-157 | A matched node keeps its op and target. Its selected arguments go through fresh observers and the others are as before. |
| QuantizeFx.VisitFxOps | src/quantized_training/quantize_fx.py:142-159 | A matched node is recorded as observed, and an unmatched call_function as unobserved. |
| QuantizeFx.RunPrepare | src/quantized_training/quantize_fx.py:135-159 | The loop keeps the graph well formed and loses no node. |
| QuantizeFx.RunPrepareGrows | src/quantized_training/quantize_fx.py:135-159 | The loop only adds observers. |
| QuantizeFx.RunPrepareOps | src/quantized_training/quantize_fx.py:143-159 | The observed and unobserved lists are the targets of the matched and unmatched call nodes, in order. |
| QuantizeFx.RunPrepareKeepsHead | src/quantized_training/quantize_fx.py:135-159 | Every original node keeps its op and target. |
| QuantizeFx.RunPrepareNoPatterns | src/quantized_training/quantize_fx.py:135-159 | With no patterns the graph is unchanged and nothing is observed. |
| QuantizeFx.PreparePt2e | src/quantized_training/quantize_fx.py:130-171 | The rewritten graph is well formed and extends the original. |
| QuantizeFx.PreparePt2eUndo | src/quantized_training/quantize_fx.py:130-171 | Dropping the inserted observers gives the original node list. |
| QuantizeFx.GraphModule.NewAttrName | src/quantized_training/quantize_fx.py:120-121 | The name chosen is the specified fresh name. |
| QuantizeFx.GraphModule.InsertObsOrFq | src/quantized_training/quantize_fx.py:103-127 | The in-place insertion yields the specified graph and observer id. |
| QuantizeFx.GraphModule.ObserveNodeArgs | src/quantized_training/quantize_fx.py:144-157 | The argument loop yields the specified graph and new arguments. |
| QuantizeFx.GraphModule.VisitNode | src/quantized_training/quantize_fx.py:136-159 | One loop iteration is exactly one specified visit. |
| QuantizeFx.GraphModule.Prepare | src/quantized_training/quantize_fx.py:130-171 | The node loop yields the specified graph and the observed and unobserved lists. |

## Behaviour of the code worth knowing

- **Scale lags the history by one observation.** The scale is computed from
  the history as it was before the current observation is written
  (src/quantized_training/fake_quantize.py:170-177).
  - Observing 2, 4, 8, 16 with history length 4 and quant_max 8 leaves the
    scale at 1.0, not 16/8 = 2.0 (`AmaxObserver.FourObservations`). The scale
    reaches 2.0 only on a fifth call.
  - Likewise, after H+1 observations the scale is the max of the first H,
    not of the last H, divided by quant_max.
- **Upper-case `RESIDUAL` in the backward list.** It selects the residual
  classes through the lower-cased category lookup. It never attaches the
  post-hook, because the `"residual" in quantize_bwd` test is case-sensitive
  (`Quantize.UpperCaseResidualSkipsPostHook`).
- **quant_max after a dtype override.** The default quant_max comes from the
  first field only. A later `dtype=` field does not recompute it
  (`TrainingArgs.QuantMaxNotRecomputed`).

## Left out

- **Outside the core.** I/O and `print` are out, and so are:
  - devices and `dispatch_model`;
  - `deepcopy`, `quantize_model`, `get_quantized_model` and `swap_softmax`;
  - the `quantize_fx` driver around its dtype split and node list: `export`,
    `run_fn`, `bfloat16` and `disable_observer`.
- **Autograd.** The straight-through `backward` methods are not modelled.
- **Rounding functions whose source is not part of this model.** The posit,
  fp8 and generic element-wise rounding functions are not computed:
  `FakeQuantize.FakeQuantFn` returns a descriptor of the chosen function and
  its parameters. The float rounding of `_quantize` is a table lookup over
  any 65536-entry table.
- **The microscaling path and the exponent histogram.** The
  `MXFakeQuantFunction` branch is reported as an error value instead of being
  computed. The histogram buffer is not kept.
- **Floating point.** Values are reals, and `Num` has one non-finite value
  standing for both inf and NaN. The conversion of an input to its binary32 or
  bfloat16 pattern is a parameter (`encode`).
  - `LookupIndex`: does not derive bit patterns from real values; it works on
    the given patterns.
- **Per-vector tiling.** The reshape of `_reshape_to_blocks` and
  `_undo_reshape_to_blocks` is left out.
  - `FakeQuantize.AmaxReduction`: names the axes (0, ch_axis) but not the
    block reshape before them.
  - A tensor is a sequence of groups, each group the elements sharing one
    amax.
- **Module trees are values.** `propagate_config`, `_convert`, `add_observer`
  and `swap_module` are functions on a tree datatype, so in-place mutation and
  aliasing of shared submodules are not captured.
  - `Quantize.SwapModule`: the replacement module is built by a parameter
    (`from_float` or `from_observed`), so the model states only the choice
    between mappings and the hook carry-over.
  - Class membership (`isinstance`) is set membership of a kind tag.
- **Quantizer construction.** `Quantize.ObserverPreHook.Call`: quantizers are
  opaque tokens, and calling one on its input is not computed.
- **Codegen error state.** When `erase_node` raises mid-fusion, the source
  leaves a partially rewritten graph. The model reports the error with the
  graph as it was before that fusion.
  - `Codegen.GrowChain` also stops when the user is already in the chain.
    This guard never fires on an acyclic graph.
- Codegen.OpOf: a call_function operation records the node's own arguments.
  The source passes `self.load_arg(node.args)`, which looks each argument node
  up in the environment `propagate` left behind. That environment, and the
  `KeyError` for a node it does not hold, are not modelled.
- **Codegen helpers.** `ShapeProp.propagate`, `fetch_attr` and
  `map_operation` are not modelled; `map_operation` is a parameter of
  `GenCode`. `FusedOperations.forward` calls node targets through a
  parameter `call`.
- Strings.Lower: only ASCII letters are lowered. Python's `str.lower` also
  maps other upper-case letters (the Kelvin sign K becomes k), and that is not
  modelled.
- Strings.ParseInt: blanks are the ASCII whitespace and the separators
  0x1c-0x1f. The Unicode spaces and non-ASCII decimal digits that `int()` and
  `float()` also accept are not modelled, and neither are the spellings
  `float()` takes in mixed case before lower-casing.
- AmaxObserver.AmaxFakeQuantize.ObserveStep: writing the amax into history
  slot 0 needs one amax per group. A single amax that torch would broadcast
  across several groups is a shape mismatch here.
- **Graph details in quantize_fx.**
  - `named_modules` is not kept, because nothing reads it in this core.
  - The observer instance itself is not modelled: each observer is a fresh
    module name and node.
  - The unused `len(node.users) > 1` branch does nothing in the source and is
    left out.
  - The node loop runs over the node list as it was at the start. Observers
    inserted during the loop match no pattern target, since they are
    `call_module` nodes with fresh names, so they would not be recorded.
- **Weight quantization.** `QuantizeFx.QuantizeParameters` is the
  `qint8`/`quint8` branch. The other dtype branch, which applies the weight
  fake quantizer, is not modelled.

## Findings

| source | as written | input that shows it | evidently intended | confidence | as-written member | corrected member |
|---|---|---|---|---|---|---|
| src/quantized_training/quantize_fx.py:17-21 | the scale is amax / ((quant_max − quant_min) / 2), and the weight is divided by it | an all-zero weight tensor, e.g. [0.0, 0.0]: the scale is 0 and 0/0 gives NaN for every entry | an all-zero weight stays all zeros | not executed | QuantizeFx.QuantizeWeightAsWritten, QuantizeFx.ZeroWeightBecomesNaN, QuantizeFx.ZeroParameter | QuantizeFx.QuantizeWeight, QuantizeFx.ZeroWeightStaysZero, QuantizeFx.QuantizeParametersAgree |

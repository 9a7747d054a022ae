/**
 * The export-based flow: splitting the dtype argument into forward and
 * backward formats, symmetric int8 weight quantization, the list of
 * operator patterns to observe, and prepare_pt2e, which puts an observer
 * node in front of selected arguments of every matching graph node.
 *
 * The graph is the arena of the chain-fusion model (Codegen): nodes by id,
 * the live ids in graph order, and the next fresh id. Weights are finite
 * reals; a result entry is a Num, so a NaN can show up in it.
 */
module QuantizeFx {
  import opened Wrappers
  import opened Numbers
  import opened Strings
  import Codegen
  import AttrNames

  type Node = Codegen.Node
  type Arg = Codegen.Arg
  type Target = Codegen.Target

  // ---------------------------------------------------------------------------
  // _quantize_weight

  function MinOf(w: seq<real>): (m: real)
    requires |w| >= 1
    ensures m in w && forall i :: 0 <= i < |w| ==> m <= w[i]
  {
    if |w| == 1 then w[0]
    else
      var rest := MinOf(w[1..]);
      if w[0] <= rest then w[0] else rest
  }

  function MaxOf(w: seq<real>): (m: real)
    requires |w| >= 1
    ensures m in w && forall i :: 0 <= i < |w| ==> w[i] <= m
  {
    if |w| == 1 then w[0]
    else
      var rest := MaxOf(w[1..]);
      if w[0] >= rest then w[0] else rest
  }

  /** torch.max(-min_val, max_val): the largest magnitude in the weight. */
  function Amax(w: seq<real>): (a: real)
    requires |w| >= 1
    ensures a >= 0.0
    ensures forall i :: 0 <= i < |w| ==> -a <= w[i] <= a
    ensures exists i :: 0 <= i < |w| && (w[i] == a || w[i] == -a)
  {
    var lo, hi := MinOf(w), MaxOf(w);
    if -lo >= hi then -lo else hi
  }

  /** The scale is zero exactly when every entry is zero. */
  lemma AmaxZero(w: seq<real>)
    requires |w| >= 1
    ensures Amax(w) == 0.0 <==> forall i :: 0 <= i < |w| ==> w[i] == 0.0
  {
  }

  /** The step between two levels: the largest magnitude over half the level range. */
  function WeightScale(w: seq<real>, qmin: int, qmax: int): (s: real)
    requires |w| >= 1 && qmin < qmax
    ensures s >= 0.0 && (s == 0.0 <==> Amax(w) == 0.0)
  {
    Amax(w) / ((qmax - qmin) as real / 2.0)
  }

  /** torch.clamp of an integer level into [qmin, qmax]. */
  function ClampLevel(n: int, qmin: int, qmax: int): (l: int)
    requires qmin <= qmax
    ensures qmin <= l <= qmax
    ensures qmin <= n <= qmax ==> l == n
  {
    if n < qmin then qmin else if n > qmax then qmax else n
  }

  datatype WeightError = EmptyTensor

  /** One entry of _quantize_weight as written: clamp(round(x / scale), qmin, qmax) * scale. */
  function EntryAsWritten(x: real, scale: real, qmin: int, qmax: int): (v: Num)
    requires qmin < qmax
    ensures v.Finite? <==> scale != 0.0
  {
    var q := DivNum(Finite(x), Finite(scale));
    if q.NonFinite? then NonFinite
    else Finite(ClampLevel(RoundHalfEven(q.r), qmin, qmax) as real * scale)
  }

  /**
   * _quantize_weight as written. When the scale is 0 every entry is 0, so
   * w / scale is 0 / 0, a NaN, and round, clamp and the product all keep it.
   */
  function QuantizeWeightAsWritten(w: seq<real>, qmin: int, qmax: int): (r: Result<seq<Num>, WeightError>)
    requires qmin < qmax
    ensures r.Err? <==> w == []
    ensures r.Ok? ==> |r.value| == |w|
  {
    if w == [] then Err(EmptyTensor)
    else
      var scale := WeightScale(w, qmin, qmax);
      Ok(seq(|w|, i requires 0 <= i < |w| => EntryAsWritten(w[i], scale, qmin, qmax)))
  }

  /** An all-zero weight comes back as NaN. */
  lemma ZeroWeightBecomesNaN()
    ensures QuantizeWeightAsWritten([0.0, 0.0], -128, 127) == Ok([NonFinite, NonFinite])
  {
    var w := [0.0, 0.0];
    AmaxZero(w);
    assert WeightScale(w, -128, 127) == 0.0;
    var r := QuantizeWeightAsWritten(w, -128, 127).value;
    assert r[0] == EntryAsWritten(0.0, 0.0, -128, 127) == NonFinite;
    assert r[1] == EntryAsWritten(0.0, 0.0, -128, 127);
    assert r == [NonFinite, NonFinite];
  }

  /**
   * The level an entry lands on: the nearest integer to x / scale, ties to
   * even, clamped into [qmin, qmax].
   */
  function Level(x: real, scale: real, qmin: int, qmax: int): (l: int)
    requires qmin < qmax && scale != 0.0
    ensures qmin <= l <= qmax
  {
    ClampLevel(RoundHalfEven(x / scale), qmin, qmax)
  }

  /** One entry of the corrected quantization: a zero scale leaves the entry as it is. */
  function Entry(x: real, scale: real, qmin: int, qmax: int): (v: Num)
    requires qmin < qmax
    ensures v.Finite?
    ensures scale != 0.0 ==> v.r == Level(x, scale, qmin, qmax) as real * scale
    ensures scale == 0.0 ==> v.r == x
  {
    if scale == 0.0 then Finite(x) else Finite(Level(x, scale, qmin, qmax) as real * scale)
  }

  /** _quantize_weight with the all-zero weight left at zero. */
  function QuantizeWeight(w: seq<real>, qmin: int, qmax: int): (r: Result<seq<Num>, WeightError>)
    requires qmin < qmax
    ensures r.Err? <==> w == []
    ensures r.Ok? ==> |r.value| == |w| && forall i :: 0 <= i < |w| ==> r.value[i].Finite?
  {
    if w == [] then Err(EmptyTensor)
    else
      var scale := WeightScale(w, qmin, qmax);
      Ok(seq(|w|, i requires 0 <= i < |w| => Entry(w[i], scale, qmin, qmax)))
  }

  /** The corrected version keeps an all-zero weight at zero. */
  lemma ZeroWeightStaysZero(w: seq<real>, qmin: int, qmax: int)
    requires |w| >= 1 && qmin < qmax && forall i :: 0 <= i < |w| ==> w[i] == 0.0
    ensures QuantizeWeight(w, qmin, qmax) == Ok(seq(|w|, _ => Finite(0.0)))
  {
    AmaxZero(w);
    var r := QuantizeWeight(w, qmin, qmax).value;
    forall i | 0 <= i < |w|
      ensures r[i] == Finite(0.0)
    {
      assert r[i] == Entry(w[i], 0.0, qmin, qmax);
    }
    assert r == seq(|w|, _ => Finite(0.0));
  }

  /** The fix changes only the degenerate case. */
  lemma QuantizeWeightAgrees(w: seq<real>, qmin: int, qmax: int)
    requires |w| >= 1 && qmin < qmax && Amax(w) != 0.0
    ensures QuantizeWeight(w, qmin, qmax) == QuantizeWeightAsWritten(w, qmin, qmax)
  {
    var s := WeightScale(w, qmin, qmax);
    var a := QuantizeWeight(w, qmin, qmax).value;
    var b := QuantizeWeightAsWritten(w, qmin, qmax).value;
    forall i | 0 <= i < |w|
      ensures a[i] == b[i]
    {
      assert a[i] == Entry(w[i], s, qmin, qmax);
      assert b[i] == EntryAsWritten(w[i], s, qmin, qmax);
      EntryAgrees(w[i], s, qmin, qmax);
    }
    assert a == b;
  }

  lemma EntryAgrees(x: real, s: real, qmin: int, qmax: int)
    requires qmin < qmax && s != 0.0
    ensures Entry(x, s, qmin, qmax) == EntryAsWritten(x, s, qmin, qmax)
  {
    assert DivNum(Finite(x), Finite(s)) == Finite(x / s);
  }

  /** Every entry of a weight that is not all zero is a level in [qmin, qmax] times the scale. */
  lemma QuantizeWeightLevels(w: seq<real>, qmin: int, qmax: int, i: nat)
    requires qmin < qmax && i < |w| && Amax(w) != 0.0
    ensures QuantizeWeight(w, qmin, qmax).Ok?
    ensures QuantizeWeight(w, qmin, qmax).value[i].r ==
      Level(w[i], WeightScale(w, qmin, qmax), qmin, qmax) as real * WeightScale(w, qmin, qmax)
  {
    var s := WeightScale(w, qmin, qmax);
    QuantizeWeightAt(w, qmin, qmax, i);
    EntryLevel(w[i], s, qmin, qmax);
  }

  lemma EntryLevel(x: real, s: real, qmin: int, qmax: int)
    requires qmin < qmax && s != 0.0
    ensures Entry(x, s, qmin, qmax).r == Level(x, s, qmin, qmax) as real * s
  {
  }

  /** Entry i of the corrected quantization of a nonempty weight. */
  lemma QuantizeWeightAt(w: seq<real>, qmin: int, qmax: int, i: nat)
    requires qmin < qmax && i < |w|
    ensures QuantizeWeight(w, qmin, qmax).Ok?
    ensures QuantizeWeight(w, qmin, qmax).value[i] == Entry(w[i], WeightScale(w, qmin, qmax), qmin, qmax)
  {
  }

  lemma MulNonneg(a: real, b: real)
    requires a >= 0.0 && b >= 0.0
    ensures a * b >= 0.0
  {
  }

  /** The rounded, clamped level is within half a step of x / s when x / s lies in [-127.5, 127.5]. */
  lemma LevelError(y: real)
    requires -127.5 <= y <= 127.5
    ensures -0.5 <= ClampLevel(RoundHalfEven(y), -128, 127) as real - y <= 0.5
  {
    var n := RoundHalfEven(y);
    if n > 127 {
      assert n == 128 && y == 127.5;
    }
  }

  /** A value within the int8 range of levels moves by at most half a step. */
  lemma EntryError(x: real, s: real)
    requires s > 0.0 && -(127.5 * s) <= x <= 127.5 * s
    ensures -s / 2.0 <= Entry(x, s, -128, 127).r - x <= s / 2.0
  {
    var y := x / s;
    assert y * s == x;
    assert y <= 127.5 by {
      if y > 127.5 {
        MulNonneg(y - 127.5, s);
        assert false;
      }
    }
    assert -127.5 <= y by {
      if y < -127.5 {
        MulNonneg(-127.5 - y, s);
        assert false;
      }
    }
    var l := Level(x, s, -128, 127);
    var d := l as real - y;
    LevelError(y);
    MulNonneg(d + 0.5, s);
    MulNonneg(0.5 - d, s);
    assert Entry(x, s, -128, 127).r - x == d * s;
  }

  /** With the int8 range every entry moves by at most half a step. */
  lemma QuantizeWeightError(w: seq<real>, i: nat)
    requires i < |w|
    ensures QuantizeWeight(w, -128, 127).Ok?
    ensures -WeightScale(w, -128, 127) / 2.0 <= QuantizeWeight(w, -128, 127).value[i].r - w[i]
    ensures QuantizeWeight(w, -128, 127).value[i].r - w[i] <= WeightScale(w, -128, 127) / 2.0
  {
    var s := WeightScale(w, -128, 127);
    var a := Amax(w);
    assert QuantizeWeight(w, -128, 127).value[i] == Entry(w[i], s, -128, 127);
    if s != 0.0 {
      assert a == 127.5 * s;
      EntryError(w[i], s);
    }
  }

  /** A weight carried over unchanged. */
  function AsNums(w: seq<real>): (r: seq<Num>)
    ensures |r| == |w| && forall i :: 0 <= i < |w| ==> r[i] == Finite(w[i])
  {
    seq(|w|, i requires 0 <= i < |w| => Finite(w[i]))
  }

  /** The int8 quantization of one weight, as the source writes it or with the zero-scale fix. */
  function QuantizeInt8(w: seq<real>, asWritten: bool): Result<seq<Num>, WeightError>
  {
    if asWritten then QuantizeWeightAsWritten(w, -128, 127) else QuantizeWeight(w, -128, 127)
  }

  /** What one named parameter becomes once the loop has run: biases stay, other weights are quantized. */
  predicate ParamResult(p: (string, seq<real>), q: (string, seq<Num>), asWritten: bool)
  {
    q.0 == p.0 &&
    if Contains(p.0, "bias") then q.1 == AsNums(p.1)
    else QuantizeInt8(p.1, asWritten) == Ok(q.1)
  }

  /**
   * quantize_fx's loop over named parameters: every parameter whose name does
   * not contain "bias" is replaced by its int8 quantization (asWritten selects
   * the formula of _quantize_weight as the source writes it); the loop fails
   * exactly when such a parameter is empty.
   */
  function QuantizeParameters(params: seq<(string, seq<real>)>, asWritten: bool): (r: Result<seq<(string, seq<Num>)>, WeightError>)
    ensures r.Ok? <==> forall i :: 0 <= i < |params| && !Contains(params[i].0, "bias") ==> params[i].1 != []
    ensures r.Ok? ==> |r.value| == |params| && forall i :: 0 <= i < |params| ==> ParamResult(params[i], r.value[i], asWritten)
  {
    if params == [] then Ok([])
    else
      var (name, w) := params[0];
      var head: Result<seq<Num>, WeightError> :=
        if Contains(name, "bias") then Ok(AsNums(w)) else QuantizeInt8(w, asWritten);
      var tail := QuantizeParameters(params[1..], asWritten);
      if head.Err? then Err(head.error)
      else if tail.Err? then
        ShiftedParams(params);
        Err(tail.error)
      else
        var r := [(name, head.value)] + tail.value;
        ShiftedParams(params);
        assert forall i :: 1 <= i < |params| ==> r[i] == tail.value[i - 1];
        Ok(r)
  }

  lemma ShiftedParams(params: seq<(string, seq<real>)>)
    requires params != []
    ensures forall i :: 1 <= i < |params| ==> params[i] == params[1..][i - 1]
  {
  }

  /** As written, every entry of an all-zero weight is NaN. */
  lemma ZeroWeightAllNaN(w: seq<real>)
    requires |w| >= 1 && forall i :: 0 <= i < |w| ==> w[i] == 0.0
    ensures QuantizeWeightAsWritten(w, -128, 127) == Ok(seq(|w|, _ => NonFinite))
  {
    AmaxZero(w);
    var r := QuantizeWeightAsWritten(w, -128, 127).value;
    forall i | 0 <= i < |w|
      ensures r[i] == NonFinite
    {
      assert r[i] == EntryAsWritten(w[i], 0.0, -128, 127);
    }
    assert r == seq(|w|, _ => NonFinite);
  }

  /**
   * A quantized parameter that is all zeros comes back as NaNs from the loop
   * as written, and as zeros with the fix.
   */
  lemma ZeroParameter(params: seq<(string, seq<real>)>, i: nat)
    requires i < |params| && !Contains(params[i].0, "bias") && |params[i].1| >= 1
    requires forall j :: 0 <= j < |params[i].1| ==> params[i].1[j] == 0.0
    ensures QuantizeParameters(params, true).Ok? ==>
      QuantizeParameters(params, true).value[i] == (params[i].0, seq(|params[i].1|, _ => NonFinite))
    ensures QuantizeParameters(params, false).Ok? ==>
      QuantizeParameters(params, false).value[i] == (params[i].0, seq(|params[i].1|, _ => Finite(0.0)))
  {
    ZeroWeightAllNaN(params[i].1);
    ZeroWeightStaysZero(params[i].1, -128, 127);
  }

  /** The two formulas give the same parameters when no quantized weight is all zeros. */
  lemma {:induction false} QuantizeParametersAgree(params: seq<(string, seq<real>)>)
    requires forall i :: 0 <= i < |params| && !Contains(params[i].0, "bias") && params[i].1 != [] ==> Amax(params[i].1) != 0.0
    ensures QuantizeParameters(params, true) == QuantizeParameters(params, false)
  {
    if params != [] {
      var (name, w) := params[0];
      if !Contains(name, "bias") && w != [] {
        QuantizeWeightAgrees(w, -128, 127);
      }
      assert forall i :: 1 <= i < |params| ==> params[i] == params[1..][i - 1];
      QuantizeParametersAgree(params[1..]);
    }
  }

  // ---------------------------------------------------------------------------
  // The dtype split of quantize_fx

  datatype DtypeError = UnpackError(parts: nat)

  /**
   * re.search(r'^FP8(\.MIXED)?$', s, re.IGNORECASE); `$` also matches just
   * before a final newline.
   */
  predicate IsFp8Alias(s: string)
  {
    var l := Lower(s);
    l == "fp8" || l == "fp8.mixed" || l == "fp8\n" || l == "fp8.mixed\n"
  }

  /**
   * The forward and backward dtypes: the two halves around a ',' (anything
   * but exactly two parts fails to unpack), E4M3 forward and E5M2 backward
   * for fp8 or fp8.mixed, and the dtype itself for both otherwise.
   */
  function SplitDtype(dtype: string): (r: Result<(string, string), DtypeError>)
    ensures ',' in dtype ==> (r.Ok? <==> |Split(dtype, ',')| == 2)
    ensures ',' in dtype && r.Err? ==> r.error == UnpackError(|Split(dtype, ',')|)
    ensures ',' in dtype && r.Ok? ==> r.value.0 + "," + r.value.1 == dtype
    ensures ',' in dtype && r.Ok? ==> ',' !in r.value.0 && ',' !in r.value.1
    ensures ',' !in dtype ==> r.Ok? && r.value == (if IsFp8Alias(dtype) then ("E4M3", "E5M2") else (dtype, dtype))
  {
    if ',' in dtype then
      var parts := Split(dtype, ',');
      if |parts| == 2 then
        JoinSplit(dtype, ',');
        assert Join(parts, ',') == parts[0] + [','] + parts[1];
        assert parts[0] in parts && parts[1] in parts;
        Ok((parts[0], parts[1]))
      else Err(UnpackError(|parts|))
    else if IsFp8Alias(dtype) then Ok(("E4M3", "E5M2"))
    else Ok((dtype, dtype))
  }

  /** Two comma-free dtypes joined by ',' come back apart. */
  lemma SplitDtypePair(fwd: string, bwd: string)
    requires ',' !in fwd && ',' !in bwd
    ensures SplitDtype(fwd + "," + bwd) == Ok((fwd, bwd))
  {
    var s := fwd + "," + bwd;
    assert s == Join([fwd, bwd], ',');
    SplitJoin([fwd, bwd], ',');
    assert s[|fwd|] == ',';
  }

  /** Three or more comma-separated dtypes fail to unpack. */
  lemma SplitDtypeTooMany(a: string, b: string, c: string)
    requires ',' !in a && ',' !in b && ',' !in c
    ensures SplitDtype(a + "," + b + "," + c) == Err(UnpackError(3))
  {
    var s := a + "," + b + "," + c;
    assert [a, b, c][1..] == [b, c];
    assert [b, c][1..] == [c];
    assert Join([c], ',') == c;
    assert Join([b, c], ',') == b + [','] + c;
    assert Join([a, b, c], ',') == a + [','] + Join([b, c], ',');
    assert s == Join([a, b, c], ',');
    SplitJoin([a, b, c], ',');
    assert s[|a|] == ',';
  }

  // ---------------------------------------------------------------------------
  // node_list

  /**
   * A QUANTIZATION_OPERATORS entry: a target whose every node argument is
   * observed, or a (target, positions) tuple observing only those positions.
   */
  datatype Pattern = Plain(target: Target) | Selective(target: Target, positions: set<nat>)

  type PatternTable = map<string, seq<Pattern>>

  /** The lookup of a lower-cased op that is not in the table. */
  datatype OpsError = UnknownOp(key: string)

  /** The table entries of each op in turn, lower-cased; the first unknown op raises. */
  function PatternsOf(ops: seq<string>, table: PatternTable): (r: Result<seq<Pattern>, OpsError>)
    ensures r.Ok? <==> forall i :: 0 <= i < |ops| ==> Lower(ops[i]) in table
    ensures r.Err? ==> exists i :: (0 <= i < |ops| && Lower(ops[i]) !in table &&
                                    r.error == UnknownOp(Lower(ops[i])) &&
                                    forall j :: 0 <= j < i ==> Lower(ops[j]) in table)
  {
    if ops == [] then Ok([])
    else if Lower(ops[0]) !in table then Err(UnknownOp(Lower(ops[0])))
    else
      match PatternsOf(ops[1..], table)
      case Ok(rest) => Ok(table[Lower(ops[0])] + rest)
      case Err(e) =>
        assert forall i :: 1 <= i < |ops| ==> ops[i] == ops[1..][i - 1];
        Err(e)
  }

  /** node_list: empty without a forward op list. */
  function NodeList(quantizeFwd: Option<string>, table: PatternTable): Result<seq<Pattern>, OpsError>
  {
    match quantizeFwd
    case None => Ok([])
    case Some(s) => PatternsOf(Split(s, ','), table)
  }

  lemma {:induction false} PatternsOfAppend(a: seq<string>, b: seq<string>, table: PatternTable)
    requires PatternsOf(a, table).Ok? && PatternsOf(b, table).Ok?
    ensures PatternsOf(a + b, table) == Ok(PatternsOf(a, table).value + PatternsOf(b, table).value)
  {
    if a == [] {
      assert a + b == b;
      var pb := PatternsOf(b, table);
      assert PatternsOf(a, table).value + pb.value == pb.value;
    } else {
      var pa := PatternsOf(a[1..], table);
      var pb := PatternsOf(b, table);
      PatternsOfCons(a, table);
      PatternsOfAppend(a[1..], b, table);
      assert (a + b)[1..] == a[1..] + b;
      PatternsOfCons(a + b, table);
      var head := table[Lower(a[0])];
      assert head + (pa.value + pb.value) == (head + pa.value) + pb.value;
    }
  }

  /** A nonempty op list whose ops are all known: the first op's entries, then the rest. */
  lemma PatternsOfCons(ops: seq<string>, table: PatternTable)
    requires |ops| >= 1 && PatternsOf(ops, table).Ok?
    ensures PatternsOf(ops[1..], table).Ok? && Lower(ops[0]) in table
    ensures PatternsOf(ops, table).value == table[Lower(ops[0])] + PatternsOf(ops[1..], table).value
  {
  }

  /**
   * Two op lists joined by ',' give the concatenation of their node lists,
   * in order and without removing repeats.
   */
  lemma NodeListConcat(a: string, b: string, table: PatternTable)
    requires NodeList(Some(a), table).Ok? && NodeList(Some(b), table).Ok?
    ensures NodeList(Some(a + "," + b), table) == Ok(NodeList(Some(a), table).value + NodeList(Some(b), table).value)
  {
    SplitConcat(a, ',', b);
    assert a + "," + b == a + [','] + b;
    PatternsOfAppend(Split(a, ','), Split(b, ','), table);
  }

  // ---------------------------------------------------------------------------
  // Observer names: get_new_attr_name_with_prefix('activation_pre_process_')

  const ObserverPrefix: string := "activation_pre_process_"

  /** The observer name for a model with attributes `attrs`. */
  function FreshName(attrs: set<string>): (name: string)
    ensures name !in attrs
    ensures IsPrefix(ObserverPrefix, name)
  {
    AttrNames.FreshNameLeast(ObserverPrefix, attrs);
    AttrNames.FreshName(ObserverPrefix, attrs)
  }

  // ---------------------------------------------------------------------------
  // The graph of prepare_pt2e

  /** The nodes by id, the node list, the next fresh id and the attribute names of the model. */
  datatype FxGraph = FxGraph(nodes: map<nat, Node>, order: seq<nat>, nextId: nat, attrs: set<string>)

  /** The node list repeats nothing and lists exactly the live nodes, ids are below the next one, and no node refers to a missing one. */
  ghost predicate GraphOk(g: FxGraph)
  {
    Codegen.Distinct(g.order) &&
    (forall n :: n in g.nodes <==> n in g.order) &&
    (forall n :: n in g.nodes ==> n < g.nextId) &&
    Codegen.Closed(g.nodes)
  }

  /** The node list restricted to ids below n, in order. */
  function Below(s: seq<nat>, n: nat): seq<nat>
  {
    if s == [] then []
    else (if s[0] < n then [s[0]] else []) + Below(s[1..], n)
  }

  lemma {:induction false} BelowAppend(a: seq<nat>, b: seq<nat>, n: nat)
    ensures Below(a + b, n) == Below(a, n) + Below(b, n)
  {
    if a == [] {
      assert a + b == b;
    } else {
      assert (a + b)[1..] == a[1..] + b;
      BelowAppend(a[1..], b, n);
    }
  }

  lemma {:induction false} BelowAll(s: seq<nat>, n: nat)
    requires forall x :: x in s ==> x < n
    ensures Below(s, n) == s
  {
    if s != [] {
      assert forall x :: x in s[1..] ==> x in s;
      assert s[0] in s;
      BelowAll(s[1..], n);
      assert s == [s[0]] + s[1..];
    }
  }

  lemma {:induction false} BelowBelow(s: seq<nat>, n1: nat, n2: nat)
    requires n1 <= n2
    ensures Below(Below(s, n2), n1) == Below(s, n1)
  {
    if s != [] {
      BelowBelow(s[1..], n1, n2);
      var rest := Below(s[1..], n2);
      if s[0] < n2 {
        assert Below(s, n2) == [s[0]] + rest;
        BelowAppend([s[0]], rest, n1);
        assert [s[0]][1..] == [];
        assert Below([s[0]], n1) == (if s[0] < n1 then [s[0]] else []) + Below([], n1);
      } else {
        assert Below(s, n2) == [] + rest;
        assert [] + rest == rest;
      }
    }
  }

  /** The call_module node that calls the observer `name` on the output of `arg`. */
  function ObserverNode(name: string, arg: nat): Node
  {
    Codegen.Node(Codegen.CallModule, Codegen.Attr(name), [Codegen.NodeArg(arg)], [])
  }

  predicate IsObserver(node: Node)
  {
    node.op == Codegen.CallModule && node.target.Attr? && IsPrefix(ObserverPrefix, node.target.name)
  }

  lemma ObserverMentions(name: string, arg: nat, m: nat)
    ensures Codegen.Mentions(ObserverNode(name, arg), m) <==> m == arg
  {
    var node := ObserverNode(name, arg);
    if m == arg {
      assert Codegen.ArgMentions(node.args[0], m);
    }
  }

  /** Two nodes with the same op, target and keyword arguments. */
  predicate SameHead(a: Node, b: Node)
  {
    a.op == b.op && a.target == b.target && a.kwargs == b.kwargs
  }

  /**
   * g2 extends g: the old node list is what remains of the new one without
   * the fresh ids, old nodes keep op, target and keyword arguments, every
   * new node is an observer with a fresh id, and no attribute is lost.
   */
  ghost predicate Grows(g: FxGraph, g2: FxGraph)
  {
    g.nextId <= g2.nextId && g.attrs <= g2.attrs &&
    Below(g2.order, g.nextId) == g.order &&
    (forall n :: n in g.nodes ==> n in g2.nodes && SameHead(g.nodes[n], g2.nodes[n])) &&
    (forall n :: n in g2.nodes && n !in g.nodes ==> g.nextId <= n && IsObserver(g2.nodes[n]))
  }

  /** Every old node is still there, unchanged. */
  ghost predicate Keeps(g: FxGraph, g2: FxGraph)
  {
    forall n :: n in g.nodes ==> n in g2.nodes && g2.nodes[n] == g.nodes[n]
  }

  lemma GrowsRefl(g: FxGraph)
    requires GraphOk(g)
    ensures Grows(g, g) && Keeps(g, g)
  {
    BelowAll(g.order, g.nextId);
  }

  lemma GrowsTrans(g1: FxGraph, g2: FxGraph, g3: FxGraph)
    requires Grows(g1, g2) && Grows(g2, g3)
    ensures Grows(g1, g3)
    ensures Keeps(g1, g2) && Keeps(g2, g3) ==> Keeps(g1, g3)
  {
    BelowBelow(g3.order, g1.nextId, g2.nextId);
  }

  /** Putting a fresh id into the node list keeps it without repeats and leaves the old ids in their order. */
  lemma InsertOrder(s: seq<nat>, p: nat, id: nat)
    requires Codegen.Distinct(s) && p <= |s| && forall x :: x in s ==> x < id
    ensures Codegen.Distinct(s[..p] + [id] + s[p..])
    ensures forall y :: y in s[..p] + [id] + s[p..] <==> y in s || y == id
    ensures Below(s[..p] + [id] + s[p..], id) == s
  {
    assert id !in s;
    Codegen.InsertFresh(s, p, id);
    BelowInsert(s, p, id);
  }

  lemma BelowSkip(x: nat, n: nat)
    requires n <= x
    ensures Below([x], n) == []
  {
    assert [x][1..] == [];
  }

  lemma BelowInsert(s: seq<nat>, p: nat, id: nat)
    requires p <= |s| && forall x :: x in s ==> x < id
    ensures Below(s[..p] + [id] + s[p..], id) == s
  {
    var a, b := s[..p], s[p..];
    BelowAppend(a + [id], b, id);
    BelowAppend(a, [id], id);
    BelowSkip(id, id);
    assert Below(a + [id] + b, id) == Below(a, id) + Below(b, id);
    BelowAppend(a, b, id);
    assert a + b == s;
    BelowAll(s, id);
  }

  /** Adding an observer of a live node keeps every reference live. */
  lemma InsertClosed(nodes: map<nat, Node>, id: nat, name: string, arg: nat)
    requires Codegen.Closed(nodes) && arg in nodes
    ensures Codegen.Closed(nodes[id := ObserverNode(name, arg)])
  {
    var nodes' := nodes[id := ObserverNode(name, arg)];
    forall n | n in nodes'
      ensures Codegen.RefersWithin(nodes'[n], nodes'.Keys)
    {
      if n == id {
        forall m | Codegen.Mentions(nodes'[n], m)
          ensures m in nodes'.Keys
        {
          ObserverMentions(name, arg, m);
        }
      } else {
        assert Codegen.RefersWithin(nodes[n], nodes.Keys);
      }
    }
  }

  lemma InsertGraphOk(g: FxGraph, arg: nat, name: string, p: nat, r: FxGraph)
    requires GraphOk(g) && arg in g.order && p <= |g.order|
    requires r == FxGraph(g.nodes[g.nextId := ObserverNode(name, arg)],
                          g.order[..p] + [g.nextId] + g.order[p..], g.nextId + 1, g.attrs + {name})
    ensures GraphOk(r)
  {
    InsertOrder(g.order, p, g.nextId);
    InsertClosed(g.nodes, g.nextId, name, arg);
  }

  lemma InsertGrows(g: FxGraph, arg: nat, name: string, p: nat, r: FxGraph)
    requires GraphOk(g) && p <= |g.order| && IsPrefix(ObserverPrefix, name)
    requires r == FxGraph(g.nodes[g.nextId := ObserverNode(name, arg)],
                          g.order[..p] + [g.nextId] + g.order[p..], g.nextId + 1, g.attrs + {name})
    ensures Grows(g, r) && Keeps(g, r)
  {
    BelowInsert(g.order, p, g.nextId);
    assert IsObserver(r.nodes[g.nextId]);
  }

  /**
   * _insert_obs_or_fq: register the observer under a fresh name and put a
   * call_module node calling it on `arg` right after `arg`.
   */
  function InsertObserver(g: FxGraph, arg: nat): (r: (FxGraph, nat))
    requires arg in g.order
    ensures forall x :: x in g.order ==> x in r.0.order
  {
    var name := FreshName(g.attrs);
    var p := Codegen.Pos(g.order, arg) + 1;
    assert g.order == g.order[..p] + g.order[p..];
    (FxGraph(g.nodes[g.nextId := ObserverNode(name, arg)],
             g.order[..p] + [g.nextId] + g.order[p..], g.nextId + 1, g.attrs + {name}),
     g.nextId)
  }

  /**
   * The observer gets the next id and a new attribute name, the graph stays
   * well formed, and it only grows by the observer node.
   */
  lemma InsertObserverOk(g: FxGraph, arg: nat)
    requires GraphOk(g) && arg in g.order
    ensures GraphOk(InsertObserver(g, arg).0)
    ensures Grows(g, InsertObserver(g, arg).0) && Keeps(g, InsertObserver(g, arg).0)
  {
    var name := FreshName(g.attrs);
    var p := Codegen.Pos(g.order, arg) + 1;
    var r := InsertObserver(g, arg).0;
    InsertGraphOk(g, arg, name, p, r);
    InsertGrows(g, arg, name, p, r);
  }

  /** The observer node comes right after its argument in the node list. */
  lemma InsertObserverPlace(g: FxGraph, arg: nat)
    requires arg in g.order
    ensures var k := Codegen.Pos(g.order, arg);
      var r := InsertObserver(g, arg);
      k + 1 < |r.0.order| && r.0.order[k] == arg && r.0.order[k + 1] == r.1
  {
    var k := Codegen.Pos(g.order, arg);
    var front := g.order[..k + 1];
    assert InsertObserver(g, arg).0.order == front + [g.nextId] + g.order[k + 1..];
    assert front[k] == g.order[k];
  }

  /** Removing the observer from the node list gives the old one back. */
  lemma InsertObserverUndo(g: FxGraph, arg: nat)
    requires GraphOk(g) && arg in g.order
    ensures Codegen.Without(InsertObserver(g, arg).0.order, {g.nextId}) == g.order
  {
    var k := Codegen.Pos(g.order, arg) + 1;
    assert InsertObserver(g, arg).0.order == g.order[..k] + [g.nextId] + g.order[k..];
    WithoutInsert(g.order, k, g.nextId);
  }

  lemma WithoutInsert(s: seq<nat>, k: nat, x: nat)
    requires k <= |s| && x !in s
    ensures Codegen.Without(s[..k] + [x] + s[k..], {x}) == s
  {
    Codegen.WithoutAppend(s[..k] + [x], s[k..], {x});
    Codegen.WithoutAppend(s[..k], [x], {x});
    WithoutNone(s[..k], {x});
    WithoutNone(s[k..], {x});
    assert Codegen.Without([x], {x}) == [];
    assert s[..k] + s[k..] == s;
  }

  lemma {:induction false} WithoutNone(s: seq<nat>, drop: set<nat>)
    requires forall x :: x in s ==> x !in drop
    ensures Codegen.Without(s, drop) == s
  {
    if s != [] {
      WithoutNone(s[1..], drop);
    }
  }

  // ---------------------------------------------------------------------------
  // prepare_pt2e

  /** The first pattern whose target (the first element of a tuple) equals t. */
  function MatchPattern(t: Target, ps: seq<Pattern>): (r: Option<nat>)
    ensures r.None? <==> forall j :: 0 <= j < |ps| ==> ps[j].target != t
    ensures r.Some? ==> r.value < |ps| && ps[r.value].target == t
    ensures r.Some? ==> forall j :: 0 <= j < r.value ==> ps[j].target != t
  {
    if ps == [] then None
    else if ps[0].target == t then Some(0)
    else
      match MatchPattern(t, ps[1..])
      case None => None
      case Some(k) => Some(k + 1)
  }

  /** The inner loop over fwd_obs_or_fq_node_list with its break. */
  method MatchingPattern(t: Target, ps: seq<Pattern>) returns (r: Option<nat>)
    ensures r == MatchPattern(t, ps)
  {
    r := None;
    var j := 0;
    while j < |ps|
      invariant 0 <= j <= |ps|
      invariant forall i :: 0 <= i < j ==> ps[i].target != t
    {
      if ps[j].target == t {
        r := Some(j);
        break;
      }
      j := j + 1;
    }
  }

  /** Argument i of a matched node gets an observer: it is a node, and the pattern selects position i. */
  predicate Observes(p: Pattern, i: nat, a: Arg)
  {
    !((p.Selective? && i !in p.positions) || !a.NodeArg?)
  }

  /** Every node argument is a live node. */
  predicate ArgsLive(order: seq<nat>, args: seq<Arg>)
  {
    forall i :: 0 <= i < |args| && args[i].NodeArg? ==> args[i].id in order
  }

  /** How many of the arguments get an observer. */
  function ObservedCount(p: Pattern, args: seq<Arg>): nat
  {
    if args == [] then 0
    else ObservedCount(p, args[..|args| - 1]) + (if Observes(p, |args| - 1, args[|args| - 1]) then 1 else 0)
  }

  /**
   * The enumerate loop over node.args: an observer for each argument the
   * pattern selects, the argument itself otherwise.
   */
  function ObserveArgs(g: FxGraph, p: Pattern, args: seq<Arg>): (r: (FxGraph, seq<Arg>))
    requires ArgsLive(g.order, args)
    ensures |r.1| == |args|
    ensures forall x :: x in g.order ==> x in r.0.order
    ensures g.attrs <= r.0.attrs && g.nextId <= r.0.nextId
    decreases |args|
  {
    if args == [] then (g, [])
    else
      var k := |args| - 1;
      var prev := ObserveArgs(g, p, args[..k]);
      if Observes(p, k, args[k]) then
        var ins := InsertObserver(prev.0, args[k].id);
        (ins.0, prev.1 + [Codegen.NodeArg(ins.1)])
      else
        (prev.0, prev.1 + [args[k]])
  }

  /** The loop keeps the graph well formed and only adds observer nodes; each new argument is the old one or a live node. */
  lemma {:induction false} ObserveArgsOk(g: FxGraph, p: Pattern, args: seq<Arg>)
    requires GraphOk(g) && ArgsLive(g.order, args)
    ensures GraphOk(ObserveArgs(g, p, args).0)
    ensures Grows(g, ObserveArgs(g, p, args).0) && Keeps(g, ObserveArgs(g, p, args).0)
    ensures ArgsKept(args, ObserveArgs(g, p, args).1, ObserveArgs(g, p, args).0)
  {
    if args == [] {
      GrowsRefl(g);
    } else {
      var k := |args| - 1;
      ObserveArgsOk(g, p, args[..k]);
      var prev := ObserveArgs(g, p, args[..k]);
      ObserveArgsLast(g, p, args);
      if Observes(p, k, args[k]) {
        var ins := InsertObserver(prev.0, args[k].id);
        InsertStepOk(g, prev.0, args[k].id);
        ArgsKeptSnoc(args, prev.1, prev.0, ins.0, Codegen.NodeArg(ins.1));
      } else {
        ArgsKeptSnoc(args, prev.1, prev.0, prev.0, args[k]);
      }
    }
  }

  /** The last step of the enumerate loop, spelled out. */
  lemma ObserveArgsLast(g: FxGraph, p: Pattern, args: seq<Arg>)
    requires ArgsLive(g.order, args) && args != []
    ensures var k := |args| - 1;
      var prev := ObserveArgs(g, p, args[..k]);
      (Observes(p, k, args[k]) ==> args[k].id in prev.0.order) &&
      ObserveArgs(g, p, args) ==
        if Observes(p, k, args[k]) then
          (InsertObserver(prev.0, args[k].id).0, prev.1 + [Codegen.NodeArg(InsertObserver(prev.0, args[k].id).1)])
        else (prev.0, prev.1 + [args[k]])
  {
  }

  /** Inserting one observer into a graph that has grown from g. */
  lemma InsertStepOk(g: FxGraph, h: FxGraph, arg: nat)
    requires GraphOk(h) && Grows(g, h) && Keeps(g, h) && arg in h.order
    ensures var ins := InsertObserver(h, arg);
      GraphOk(ins.0) && Grows(g, ins.0) && Keeps(g, ins.0) &&
      ins.1 in ins.0.nodes && (forall n :: n in h.nodes ==> n in ins.0.nodes)
  {
    var ins := InsertObserver(h, arg);
    InsertObserverOk(h, arg);
    GrowsTrans(g, h, ins.0);
  }

  /** Each new argument is the old one or a live node of h. */
  ghost predicate ArgsKept(args: seq<Arg>, out: seq<Arg>, h: FxGraph)
  {
    |out| == |args| &&
    forall i :: 0 <= i < |args| ==> out[i] == args[i] || (out[i].NodeArg? && out[i].id in h.nodes)
  }

  /** Appending the rewritten last argument keeps every argument kept. */
  lemma ArgsKeptSnoc(args: seq<Arg>, out: seq<Arg>, h: FxGraph, h2: FxGraph, a: Arg)
    requires args != [] && ArgsKept(args[..|args| - 1], out, h)
    requires forall n :: n in h.nodes ==> n in h2.nodes
    requires a == args[|args| - 1] || (a.NodeArg? && a.id in h2.nodes)
    ensures ArgsKept(args, out + [a], h2)
  {
    var k := |args| - 1;
    forall i | 0 <= i < |args|
      ensures (out + [a])[i] == args[i] || ((out + [a])[i].NodeArg? && (out + [a])[i].id in h2.nodes)
    {
      if i < k {
        assert args[..k][i] == args[i];
      }
    }
  }

  /** One observer per selected argument: the next id and the number of attributes grow by that count. */
  lemma {:induction false} ObserveArgsCount(g: FxGraph, p: Pattern, args: seq<Arg>)
    requires ArgsLive(g.order, args)
    ensures ObserveArgs(g, p, args).0.nextId == g.nextId + ObservedCount(p, args)
    ensures |ObserveArgs(g, p, args).0.attrs| == |g.attrs| + ObservedCount(p, args)
  {
    if args != [] {
      var k := |args| - 1;
      ObserveArgsCount(g, p, args[..k]);
      var prev := ObserveArgs(g, p, args[..k]);
      if Observes(p, k, args[k]) {
        var ins := InsertObserver(prev.0, args[k].id);
        assert ObserveArgs(g, p, args).0 == ins.0;
        assert FreshName(prev.0.attrs) !in prev.0.attrs;
      } else {
        assert ObserveArgs(g, p, args).0 == prev.0;
      }
    }
  }

  /** An argument the pattern does not select is passed on as it was. */
  lemma {:induction false} ObserveArgsPassed(g: FxGraph, p: Pattern, args: seq<Arg>)
    requires ArgsLive(g.order, args)
    ensures forall i :: 0 <= i < |args| && !Observes(p, i, args[i]) ==> ObserveArgs(g, p, args).1[i] == args[i]
  {
    if args != [] {
      var k := |args| - 1;
      ObserveArgsPassed(g, p, args[..k]);
      var prev := ObserveArgs(g, p, args[..k]);
      assert forall i :: 0 <= i < k ==> args[..k][i] == args[i];
      if Observes(p, k, args[k]) {
        assert ObserveArgs(g, p, args).1 == prev.1 + [Codegen.NodeArg(InsertObserver(prev.0, args[k].id).1)];
      } else {
        assert ObserveArgs(g, p, args).1 == prev.1 + [args[k]];
      }
    }
  }

  /**
   * A selected argument is replaced by its own observer node: fresh, in
   * increasing id order, calling a new attribute on exactly that argument.
   */
  lemma {:induction false} ObserveArgsObservers(g: FxGraph, p: Pattern, args: seq<Arg>)
    requires ArgsLive(g.order, args)
    ensures ObserversPlaced(g, p, args, ObserveArgs(g, p, args))
  {
    if args != [] {
      var k := |args| - 1;
      var prev := ObserveArgs(g, p, args[..k]);
      ObserveArgsObservers(g, p, args[..k]);
      if Observes(p, k, args[k]) {
        var ins := InsertObserver(prev.0, args[k].id);
        ObserveArgsObservedStep(g, p, args, prev, ins);
      } else {
        ObserveArgsPassedStep(g, p, args, prev);
      }
    }
  }

  /** Every selected argument goes through its own fresh observer, and later arguments get later observers. */
  ghost predicate ObserversPlaced(g: FxGraph, p: Pattern, args: seq<Arg>, r: (FxGraph, seq<Arg>))
  {
    (forall i :: 0 <= i < |args| && Observes(p, i, args[i]) ==> ObservedBy(g, r, args[i], i)) &&
    (forall i, j :: 0 <= i < j < |args| && Observes(p, i, args[i]) && Observes(p, j, args[j]) ==>
       i < |r.1| && j < |r.1| && r.1[i].NodeArg? && r.1[j].NodeArg? && r.1[i].id < r.1[j].id)
  }

  lemma ObserveArgsObservedStep(g: FxGraph, p: Pattern, args: seq<Arg>, prev: (FxGraph, seq<Arg>), ins: (FxGraph, nat))
    requires args != [] && Observes(p, |args| - 1, args[|args| - 1])
    requires |prev.1| == |args| - 1 && g.attrs <= prev.0.attrs && g.nextId <= prev.0.nextId
    requires ObserversPlaced(g, p, args[..|args| - 1], prev)
    requires args[|args| - 1].id in prev.0.order
    requires ins == InsertObserver(prev.0, args[|args| - 1].id)
    ensures ObserversPlaced(g, p, args, (ins.0, prev.1 + [Codegen.NodeArg(ins.1)]))
  {
    var k := |args| - 1;
    var r := (ins.0, prev.1 + [Codegen.NodeArg(ins.1)]);
    assert forall i :: 0 <= i < k ==> args[..k][i] == args[i];
    forall i | 0 <= i < k && Observes(p, i, args[i])
      ensures ObservedBy(g, r, args[i], i)
    {
      assert ObservedBy(g, prev, args[i], i);
    }
    assert ObservedBy(g, r, args[k], k) by {
      assert FreshName(prev.0.attrs) !in g.attrs;
    }
    forall i, j | 0 <= i < j < |args| && Observes(p, i, args[i]) && Observes(p, j, args[j])
      ensures r.1[i].NodeArg? && r.1[j].NodeArg? && r.1[i].id < r.1[j].id
    {
      assert args[..k][i] == args[i];
      if j < k {
        assert args[..k][j] == args[j];
      } else {
        assert ObservedBy(g, prev, args[i], i);
      }
    }
  }

  lemma ObserveArgsPassedStep(g: FxGraph, p: Pattern, args: seq<Arg>, prev: (FxGraph, seq<Arg>))
    requires args != [] && !Observes(p, |args| - 1, args[|args| - 1])
    requires |prev.1| == |args| - 1
    requires ObserversPlaced(g, p, args[..|args| - 1], prev)
    ensures ObserversPlaced(g, p, args, (prev.0, prev.1 + [args[|args| - 1]]))
  {
    var k := |args| - 1;
    var r := (prev.0, prev.1 + [args[k]]);
    assert forall i :: 0 <= i < k ==> args[..k][i] == args[i];
    forall i | 0 <= i < k && Observes(p, i, args[i])
      ensures ObservedBy(g, r, args[i], i)
    {
      assert ObservedBy(g, prev, args[i], i);
    }
    forall i, j | 0 <= i < j < |args| && Observes(p, i, args[i]) && Observes(p, j, args[j])
      ensures r.1[i].NodeArg? && r.1[j].NodeArg? && r.1[i].id < r.1[j].id
    {
      assert args[..k][i] == args[i] && args[..k][j] == args[j];
    }
  }

  /** Position i of the new arguments is a fresh observer node of `a`, registered under a new name. */
  ghost predicate ObservedBy(g: FxGraph, r: (FxGraph, seq<Arg>), a: Arg, i: nat)
    requires a.NodeArg?
  {
    i < |r.1| && r.1[i].NodeArg? && g.nextId <= r.1[i].id < r.0.nextId && r.1[i].id in r.0.nodes &&
    exists name :: name in r.0.attrs && name !in g.attrs && r.0.nodes[r.1[i].id] == ObserverNode(name, a.id)
  }

  /** str(node.target). */
  function TargetName(t: Target): string
  {
    match t
    case Fn(f) => f
    case Attr(name) => name
  }

  /** The rewritten graph and the two op lists, in visiting order. */
  datatype Prepared = Prepared(g: FxGraph, observed: seq<string>, unobserved: seq<string>)

  lemma RewriteOk(g: FxGraph, g2: FxGraph, id: nat, newArgs: seq<Arg>)
    requires GraphOk(g) && GraphOk(g2) && Grows(g, g2) && Keeps(g, g2) && id in g.nodes
    requires ArgsKept(g.nodes[id].args, newArgs, g2)
    ensures GraphOk(g2.(nodes := g2.nodes[id := g.nodes[id].(args := newArgs)]))
    ensures Grows(g, g2.(nodes := g2.nodes[id := g.nodes[id].(args := newArgs)]))
  {
    RewrittenRefers(g, g2, id, newArgs);
    RewriteGraphOk(g2, id, g.nodes[id].(args := newArgs));
    RewriteGrows(g, g2, id, g.nodes[id].(args := newArgs));
  }

  /** Replacing a live node by one that refers only to live nodes keeps the graph well formed. */
  lemma RewriteGraphOk(g2: FxGraph, id: nat, node': Node)
    requires GraphOk(g2) && id in g2.nodes && Codegen.RefersWithin(node', g2.nodes.Keys)
    ensures GraphOk(g2.(nodes := g2.nodes[id := node']))
  {
    var g3 := g2.(nodes := g2.nodes[id := node']);
    assert g3.nodes.Keys == g2.nodes.Keys;
    forall n | n in g3.nodes
      ensures Codegen.RefersWithin(g3.nodes[n], g3.nodes.Keys)
    {
      if n != id {
        assert Codegen.RefersWithin(g2.nodes[n], g2.nodes.Keys);
      }
    }
  }

  /** Replacing an old node by one with the same head keeps g2 an extension of g. */
  lemma RewriteGrows(g: FxGraph, g2: FxGraph, id: nat, node': Node)
    requires Grows(g, g2) && id in g.nodes && SameHead(g.nodes[id], node')
    ensures Grows(g, g2.(nodes := g2.nodes[id := node']))
  {
  }

  /** The rewritten node refers only to live nodes of g2. */
  lemma RewrittenRefers(g: FxGraph, g2: FxGraph, id: nat, newArgs: seq<Arg>)
    requires GraphOk(g) && Keeps(g, g2) && id in g.nodes
    requires ArgsKept(g.nodes[id].args, newArgs, g2)
    ensures Codegen.RefersWithin(g.nodes[id].(args := newArgs), g2.nodes.Keys)
  {
    var node := g.nodes[id];
    var node' := node.(args := newArgs);
    assert Codegen.RefersWithin(node, g.nodes.Keys);
    forall m | Codegen.Mentions(node', m)
      ensures m in g2.nodes
    {
      if exists i :: 0 <= i < |newArgs| && Codegen.ArgMentions(newArgs[i], m) {
        var i :| 0 <= i < |newArgs| && Codegen.ArgMentions(newArgs[i], m);
        if newArgs[i] == node.args[i] {
          assert Codegen.Mentions(node, m);
        }
      } else {
        assert Codegen.Mentions(node, m);
      }
    }
  }

  lemma NodeArgsLive(g: FxGraph, id: nat)
    requires GraphOk(g) && id in g.nodes
    ensures ArgsLive(g.order, g.nodes[id].args)
  {
    var node := g.nodes[id];
    forall i | 0 <= i < |node.args| && node.args[i].NodeArg?
      ensures node.args[i].id in g.order
    {
      assert Codegen.ArgMentions(node.args[i], node.args[i].id);
      assert Codegen.Mentions(node, node.args[i].id);
      assert Codegen.RefersWithin(node, g.nodes.Keys);
    }
  }

  /**
   * One iteration of the node loop of prepare_pt2e: a node matching a
   * pattern is recorded as observed and gets its selected arguments
   * observed; an unmatched call_function node is recorded as unobserved.
   */
  function VisitFx(st: Prepared, id: nat, ps: seq<Pattern>): (r: Prepared)
    requires id in st.g.nodes && ArgsLive(st.g.order, st.g.nodes[id].args)
  {
    var node := st.g.nodes[id];
    match MatchPattern(node.target, ps)
    case Some(k) =>
      var obs := ObserveArgs(st.g, ps[k], node.args);
      Prepared(obs.0.(nodes := obs.0.nodes[id := node.(args := obs.1)]),
               st.observed + [TargetName(node.target)], st.unobserved)
    case None =>
      if node.op == Codegen.CallFunction then Prepared(st.g, st.observed, st.unobserved + [TargetName(node.target)])
      else st
  }

  /** A visit keeps the graph well formed, only adds observers, and changes no other node. */
  lemma VisitFxOk(st: Prepared, id: nat, ps: seq<Pattern>)
    requires GraphOk(st.g) && id in st.g.nodes
    ensures ArgsLive(st.g.order, st.g.nodes[id].args)
    ensures GraphOk(VisitFx(st, id, ps).g) && Grows(st.g, VisitFx(st, id, ps).g)
    ensures forall n :: n in st.g.nodes && n != id ==> VisitFx(st, id, ps).g.nodes[n] == st.g.nodes[n]
  {
    var node := st.g.nodes[id];
    NodeArgsLive(st.g, id);
    match MatchPattern(node.target, ps)
    case Some(k) =>
      var obs := ObserveArgs(st.g, ps[k], node.args);
      ObserveArgsOk(st.g, ps[k], node.args);
      RewriteOk(st.g, obs.0, id, obs.1);
    case None =>
      GrowsRefl(st.g);
  }

  /** The selected arguments of a matched node now go through their own fresh observers; the others are as before. */
  lemma VisitFxEffect(st: Prepared, id: nat, ps: seq<Pattern>)
    requires GraphOk(st.g) && id in st.g.nodes && MatchPattern(st.g.nodes[id].target, ps).Some?
    ensures var node := st.g.nodes[id];
      var p := ps[MatchPattern(node.target, ps).value];
      var after := VisitFx(st, id, ps).g.nodes[id];
      SameHead(node, after) && |after.args| == |node.args| &&
      (forall i :: 0 <= i < |node.args| && !Observes(p, i, node.args[i]) ==> after.args[i] == node.args[i]) &&
      (forall i :: 0 <= i < |node.args| && Observes(p, i, node.args[i]) ==>
         ObservedBy(st.g, (VisitFx(st, id, ps).g, after.args), node.args[i], i))
  {
    var node := st.g.nodes[id];
    var p := ps[MatchPattern(node.target, ps).value];
    NodeArgsLive(st.g, id);
    ObserveArgsPassed(st.g, p, node.args);
    ObserveArgsObservers(st.g, p, node.args);
    var obs := ObserveArgs(st.g, p, node.args);
    var r := VisitFx(st, id, ps).g;
    forall i | 0 <= i < |node.args| && Observes(p, i, node.args[i])
      ensures ObservedBy(st.g, (r, obs.1), node.args[i], i)
    {
      assert ObservedBy(st.g, obs, node.args[i], i);
      assert obs.1[i].id != id;
    }
  }

  /** The node loop of prepare_pt2e over the ids of the node list it started with. */
  function RunPrepare(g: FxGraph, ids: seq<nat>, ps: seq<Pattern>): (r: Prepared)
    requires GraphOk(g) && forall i :: 0 <= i < |ids| ==> ids[i] in g.nodes
    ensures GraphOk(r.g) && g.nodes.Keys <= r.g.nodes.Keys
    decreases |ids|
  {
    if ids == [] then
      Prepared(g, [], [])
    else
      var k := |ids| - 1;
      var prev := RunPrepare(g, ids[..k], ps);
      VisitFxOk(prev, ids[k], ps);
      VisitFx(prev, ids[k], ps)
  }

  /** The node loop only extends the graph it starts from. */
  lemma {:induction false} RunPrepareGrows(g: FxGraph, ids: seq<nat>, ps: seq<Pattern>)
    requires GraphOk(g) && forall i :: 0 <= i < |ids| ==> ids[i] in g.nodes
    ensures Grows(g, RunPrepare(g, ids, ps).g)
    decreases |ids|
  {
    if ids == [] {
      GrowsRefl(g);
    } else {
      var k := |ids| - 1;
      var prev := RunPrepare(g, ids[..k], ps);
      RunPrepareGrows(g, ids[..k], ps);
      VisitFxOk(prev, ids[k], ps);
      GrowsTrans(g, prev.g, RunPrepare(g, ids, ps).g);
    }
  }

  /** The loop takes one more step from where it stands. */
  lemma RunPrepareStep(g: FxGraph, ids: seq<nat>, i: nat, ps: seq<Pattern>)
    requires GraphOk(g) && i < |ids| && forall j :: 0 <= j < |ids| ==> ids[j] in g.nodes
    ensures ids[i] in RunPrepare(g, ids[..i], ps).g.nodes
    ensures ArgsLive(RunPrepare(g, ids[..i], ps).g.order, RunPrepare(g, ids[..i], ps).g.nodes[ids[i]].args)
    ensures RunPrepare(g, ids[..i + 1], ps) == VisitFx(RunPrepare(g, ids[..i], ps), ids[i], ps)
  {
    assert ids[..i + 1][..i] == ids[..i];
    VisitFxOk(RunPrepare(g, ids[..i], ps), ids[i], ps);
  }

  /** Every entry of the node list is a live node. */
  lemma OrderLive(g: FxGraph)
    requires GraphOk(g)
    ensures forall i :: 0 <= i < |g.order| ==> g.order[i] in g.nodes
  {
  }

  /** The node loop starts from the unchanged graph with both op lists empty. */
  lemma PrepareLoopStart(g: FxGraph, ps: seq<Pattern>)
    requires GraphOk(g)
    ensures RunPrepare(g, g.order[..0], ps) == Prepared(g, [], [])
  {
    assert g.order[..0] == [];
  }

  /** One iteration of the node loop over the node list of g: the node is live and its visit extends the run. */
  lemma PrepareLoopStep(g: FxGraph, i: nat, ps: seq<Pattern>, st: Prepared)
    requires GraphOk(g) && i < |g.order| && st == RunPrepare(g, g.order[..i], ps)
    ensures g.order[i] in st.g.nodes && ArgsLive(st.g.order, st.g.nodes[g.order[i]].args)
    ensures VisitFx(st, g.order[i], ps) == RunPrepare(g, g.order[..i + 1], ps)
  {
    RunPrepareStep(g, g.order, i, ps);
  }

  /** The node loop, run over the whole node list of g, is prepare_pt2e. */
  lemma PrepareLoopDone(g: FxGraph, ps: seq<Pattern>, st: Prepared)
    requires GraphOk(g) && st == RunPrepare(g, g.order[..|g.order|], ps)
    requires forall i :: 0 <= i < |g.order| ==> g.order[i] in g.nodes
    ensures st == PreparePt2e(g, ps)
    ensures st.observed == ObservedOps(g.nodes, g.order, ps)
    ensures st.unobserved == UnobservedOps(g.nodes, g.order, ps)
  {
    assert g.order[..|g.order|] == g.order;
    RunPrepareOps(g, g.order, ps);
  }

  /** prepare_pt2e: the node loop over the whole node list. */
  function PreparePt2e(g: FxGraph, ps: seq<Pattern>): (r: Prepared)
    requires GraphOk(g)
    ensures GraphOk(r.g) && Grows(g, r.g)
  {
    RunPrepareGrows(g, g.order, ps);
    RunPrepare(g, g.order, ps)
  }

  /** The targets of the listed nodes that match a pattern, in order. */
  function ObservedOps(nodes: map<nat, Node>, ids: seq<nat>, ps: seq<Pattern>): seq<string>
    requires forall i :: 0 <= i < |ids| ==> ids[i] in nodes
  {
    if ids == [] then []
    else
      var n := nodes[ids[|ids| - 1]];
      ObservedOps(nodes, ids[..|ids| - 1], ps) + (if MatchPattern(n.target, ps).Some? then [TargetName(n.target)] else [])
  }

  /** The targets of the listed call_function nodes that match no pattern, in order. */
  function UnobservedOps(nodes: map<nat, Node>, ids: seq<nat>, ps: seq<Pattern>): seq<string>
    requires forall i :: 0 <= i < |ids| ==> ids[i] in nodes
  {
    if ids == [] then []
    else
      var n := nodes[ids[|ids| - 1]];
      UnobservedOps(nodes, ids[..|ids| - 1], ps) +
        (if MatchPattern(n.target, ps).None? && n.op == Codegen.CallFunction then [TargetName(n.target)] else [])
  }

  /**
   * The two op lists depend only on the graph the loop started with: the
   * observers it inserts never change an op or a target.
   */
  lemma {:induction false} RunPrepareOps(g: FxGraph, ids: seq<nat>, ps: seq<Pattern>)
    requires GraphOk(g) && forall i :: 0 <= i < |ids| ==> ids[i] in g.nodes
    ensures RunPrepare(g, ids, ps).observed == ObservedOps(g.nodes, ids, ps)
    ensures RunPrepare(g, ids, ps).unobserved == UnobservedOps(g.nodes, ids, ps)
  {
    if ids != [] {
      var k := |ids| - 1;
      var front := ids[..k];
      RunPrepareOps(g, front, ps);
      RunPrepareStep(g, ids, k, ps);
      assert ids[..k + 1] == ids;
      var prev := RunPrepare(g, front, ps);
      VisitFxOps(prev, ids[k], ps);
      RunPrepareKeepsHead(g, front, ps, ids[k]);
    }
  }

  /** A node of the original graph keeps its op, target and keyword arguments through the node loop. */
  lemma RunPrepareKeepsHead(g: FxGraph, ids: seq<nat>, ps: seq<Pattern>, n: nat)
    requires GraphOk(g) && (forall i :: 0 <= i < |ids| ==> ids[i] in g.nodes) && n in g.nodes
    ensures n in RunPrepare(g, ids, ps).g.nodes && SameHead(g.nodes[n], RunPrepare(g, ids, ps).g.nodes[n])
  {
    RunPrepareGrows(g, ids, ps);
  }

  /** What one visit appends to the two op lists. */
  lemma VisitFxOps(st: Prepared, id: nat, ps: seq<Pattern>)
    requires id in st.g.nodes && ArgsLive(st.g.order, st.g.nodes[id].args)
    ensures var n := st.g.nodes[id];
      VisitFx(st, id, ps).observed ==
        st.observed + (if MatchPattern(n.target, ps).Some? then [TargetName(n.target)] else [])
    ensures var n := st.g.nodes[id];
      VisitFx(st, id, ps).unobserved ==
        st.unobserved + (if MatchPattern(n.target, ps).None? && n.op == Codegen.CallFunction then [TargetName(n.target)] else [])
  {
  }

  /** Without patterns prepare_pt2e changes nothing and observes nothing. */
  lemma {:induction false} RunPrepareNoPatterns(g: FxGraph, ids: seq<nat>)
    requires GraphOk(g) && forall i :: 0 <= i < |ids| ==> ids[i] in g.nodes
    ensures RunPrepare(g, ids, []).g == g
    ensures RunPrepare(g, ids, []).observed == []
  {
    if ids != [] {
      RunPrepareNoPatterns(g, ids[..|ids| - 1]);
    }
  }

  /** Removing the inserted observers from the node list gives the original node list back. */
  lemma PreparePt2eUndo(g: FxGraph, ps: seq<Pattern>)
    requires GraphOk(g)
    ensures Below(PreparePt2e(g, ps).g.order, g.nextId) == g.order
  {
  }

  // ---------------------------------------------------------------------------
  // The GraphModule that prepare_pt2e rewrites in place

  class GraphModule {
    var nodes: map<nat, Node>
    var order: seq<nat>
    var nextId: nat
    var attrs: set<string>

    function Graph(): FxGraph
      reads this
    {
      FxGraph(nodes, order, nextId, attrs)
    }

    constructor(g: FxGraph)
      ensures Graph() == g
    {
      nodes := g.nodes;
      order := g.order;
      nextId := g.nextId;
      attrs := g.attrs;
    }

    /** get_new_attr_name on the model's attributes. */
    method NewAttrName() returns (name: string)
      ensures name == FreshName(attrs)
    {
      name := AttrNames.NewAttrName(ObserverPrefix, attrs);
    }

    /** _insert_obs_or_fq. */
    method InsertObsOrFq(arg: nat) returns (obs: nat)
      requires arg in order
      modifies this
      ensures (Graph(), obs) == InsertObserver(old(Graph()), arg)
    {
      var name := NewAttrName();
      var p := Codegen.Pos(order, arg) + 1;
      obs := nextId;
      nodes := nodes[obs := ObserverNode(name, arg)];
      order := order[..p] + [obs] + order[p..];
      nextId := nextId + 1;
      attrs := attrs + {name};
    }

    /** The loop over the arguments of a matched node. */
    method ObserveNodeArgs(p: Pattern, args: seq<Arg>) returns (newArgs: seq<Arg>)
      requires ArgsLive(order, args)
      modifies this
      ensures (Graph(), newArgs) == ObserveArgs(old(Graph()), p, args)
    {
      ghost var g0 := Graph();
      newArgs := [];
      var i := 0;
      while i < |args|
        invariant 0 <= i <= |args|
        invariant (Graph(), newArgs) == ObserveArgs(g0, p, args[..i])
      {
        assert args[..i + 1][..i] == args[..i];
        var arg := args[i];
        if (p.Selective? && i !in p.positions) || !arg.NodeArg? {
          newArgs := newArgs + [arg];
        } else {
          assert arg.id in g0.order;
          var obs := InsertObsOrFq(arg.id);
          newArgs := newArgs + [Codegen.NodeArg(obs)];
        }
        i := i + 1;
      }
      assert args[..i] == args;
    }

    /** One iteration of the node loop. */
    method VisitNode(id: nat, ps: seq<Pattern>, st: Prepared) returns (r: Prepared)
      requires id in nodes && ArgsLive(order, nodes[id].args) && st.g == Graph()
      modifies this
      ensures r == VisitFx(st, id, ps) && Graph() == r.g
    {
      var node := nodes[id];
      var m := MatchingPattern(node.target, ps);
      if m.Some? {
        var newArgs := ObserveNodeArgs(ps[m.value], node.args);
        nodes := nodes[id := node.(args := newArgs)];
        r := Prepared(Graph(), st.observed + [TargetName(node.target)], st.unobserved);
      } else if node.op == Codegen.CallFunction {
        r := Prepared(Graph(), st.observed, st.unobserved + [TargetName(node.target)]);
      } else {
        r := st;
      }
    }

    /**
     * prepare_pt2e: walk the node list, observing the selected arguments of
     * every node that matches a pattern. The graph ends as PreparePt2e
     * leaves it, and the two op lists are the matched targets and the
     * unmatched call_function targets of the original graph.
     */
    method Prepare(ps: seq<Pattern>) returns (observed: seq<string>, unobserved: seq<string>)
      requires GraphOk(Graph())
      modifies this
      ensures Graph() == PreparePt2e(old(Graph()), ps).g
      ensures observed == ObservedOps(old(nodes), old(order), ps)
      ensures unobserved == UnobservedOps(old(nodes), old(order), ps)
    {
      ghost var g0 := Graph();
      var ids := order;
      var st := Prepared(Graph(), [], []);
      PrepareLoopStart(g0, ps);
      var i := 0;
      while i < |ids|
        invariant 0 <= i <= |ids|
        invariant st == RunPrepare(g0, ids[..i], ps) && Graph() == st.g
      {
        PrepareLoopStep(g0, i, ps, st);
        st := VisitNode(ids[i], ps, st);
        i := i + 1;
      }
      OrderLive(g0);
      PrepareLoopDone(g0, ps, st);
      observed, unobserved := st.observed, st.unobserved;
    }
  }
}

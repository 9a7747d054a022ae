/**
 * The amax-history observer of FusedAmaxObsFakeQuantize: a bounded history
 * of per-group maxima, rotated and overwritten in place on every observed
 * call, and a per-group scale derived from the history as it stood before the
 * call.
 *
 * A tensor is seen through its reduction groups: the caller splits the input
 * into the groups torch.amax reduces over (AmaxReduction in FakeQuantize
 * names the axes), and every group becomes one element of a sequence. The
 * history is an array of H rows, each row holding one amax per group.
 */
module AmaxObserver {
  import opened Wrappers
  import opened Numbers
  import opened LookupIndex
  import opened FakeQuantize

  // ---------------------------------------------------------------------------
  // Maxima

  /** The largest of a nonempty sequence of floats; any infinity or NaN wins. */
  function SeqMax(s: seq<Num>): (m: Num)
    requires |s| >= 1
    ensures m.NonFinite? <==> exists i :: 0 <= i < |s| && s[i].NonFinite?
    ensures m.Finite? ==> forall i :: 0 <= i < |s| ==> s[i].r <= m.r
    ensures m.Finite? ==> exists i :: 0 <= i < |s| && s[i] == m
  {
    if |s| == 1 then s[0]
    else
      var init := s[..|s| - 1];
      assert forall i :: 0 <= i < |s| - 1 ==> init[i] == s[i];
      MaxNum(SeqMax(init), s[|s| - 1])
  }

  /** Two sequences holding the same values have the same maximum, whatever their order. */
  lemma SeqMaxSameValues(a: seq<Num>, b: seq<Num>)
    requires |a| >= 1 && |b| >= 1
    requires forall x :: x in a <==> x in b
    ensures SeqMax(a) == SeqMax(b)
  {
    var ma, mb := SeqMax(a), SeqMax(b);
    if exists i :: 0 <= i < |a| && a[i].NonFinite? {
      var i :| 0 <= i < |a| && a[i].NonFinite?;
      assert a[i] in b;
    }
    if exists i :: 0 <= i < |b| && b[i].NonFinite? {
      var i :| 0 <= i < |b| && b[i].NonFinite?;
      assert b[i] in a;
    }
    if ma.Finite? && mb.Finite? {
      assert ma in b;
      assert mb in a;
    }
  }

  /** torch.amax(torch.abs(x)) over one reduction group. */
  function GroupAmax(g: seq<Num>): (m: Num)
    requires |g| >= 1
    ensures m.NonFinite? <==> exists i :: 0 <= i < |g| && g[i].NonFinite?
    ensures m.Finite? ==> m.r >= 0.0
    ensures m.Finite? ==> forall i :: 0 <= i < |g| ==> -m.r <= g[i].r <= m.r
    ensures m.Finite? ==> exists i :: 0 <= i < |g| && (g[i].r == m.r || g[i].r == -m.r)
  {
    var mags := seq(|g|, i requires 0 <= i < |g| => AbsNum(g[i]));
    assert forall i :: 0 <= i < |g| ==> mags[i] == AbsNum(g[i]);
    SeqMax(mags)
  }

  /** _get_amax of an input already split into its reduction groups. */
  function Amaxes(x: seq<seq<Num>>): (a: seq<Num>)
    requires forall g :: 0 <= g < |x| ==> |x[g]| >= 1
    ensures |a| == |x|
  {
    seq(|x|, g requires 0 <= g < |x| => GroupAmax(x[g]))
  }

  // ---------------------------------------------------------------------------
  // The history buffer

  /** Every row holds one value per group. */
  ghost predicate Rect(rows: seq<seq<Num>>, groups: nat)
  {
    forall i :: 0 <= i < |rows| ==> |rows[i]| == groups
  }

  function Zeros(groups: nat): seq<Num>
  {
    seq(groups, _ => Finite(0.0))
  }

  function Ones(groups: nat): seq<Num>
  {
    seq(groups, _ => Finite(1.0))
  }

  /** torch.zeros((amax_history_len,) + amax.shape). */
  function ZeroRows(len: nat, groups: nat): (rows: seq<seq<Num>>)
    ensures |rows| == len && Rect(rows, groups)
  {
    seq(len, _ => Zeros(groups))
  }

  /** Column g of the history: the values one group has recorded. */
  function Column(rows: seq<seq<Num>>, g: nat): seq<Num>
    requires forall i :: 0 <= i < |rows| ==> g < |rows[i]|
  {
    seq(|rows|, i requires 0 <= i < |rows| => rows[i][g])
  }

  /** torch.amax(amax_history, dim=0): the largest recorded value of every group. */
  function HistoryMax(rows: seq<seq<Num>>, groups: nat): (m: seq<Num>)
    requires |rows| >= 1 && Rect(rows, groups)
    ensures |m| == groups
  {
    seq(groups, g requires 0 <= g < groups => SeqMax(Column(rows, g)))
  }

  /**
   * The in-place history update: roll the rows left by one when there is more
   * than one (slot i takes old slot i + 1, the last slot takes old slot 0),
   * then overwrite slot 0 with the new amax.
   */
  function Observe(rows: seq<seq<Num>>, cur: seq<Num>): (r: seq<seq<Num>>)
    requires |rows| >= 1
    ensures |r| == |rows| && r[0] == cur
  {
    var rolled := if |rows| > 1 then rows[1..] + [rows[0]] else rows;
    rolled[0 := cur]
  }

  /** The update keeps the length, keeps old slot 0 (now last) and drops exactly old slot 1. */
  lemma ObserveDropsSlotOne(rows: seq<seq<Num>>, cur: seq<Num>)
    requires |rows| >= 2
    ensures multiset(Observe(rows, cur)) == multiset(rows) - multiset{rows[1]} + multiset{cur}
    ensures Observe(rows, cur)[|rows| - 1] == rows[0]
  {
    var r := Observe(rows, cur);
    assert r == [cur] + rows[2..] + [rows[0]];
    assert rows == [rows[0]] + [rows[1]] + rows[2..];
  }

  /**
   * The last `len` observations in the order they arrived, with rows of zeros
   * standing in before the first one: what a history of length `len` has seen.
   */
  function Window(log: seq<seq<Num>>, len: nat, groups: nat): (w: seq<seq<Num>>)
    ensures |w| == len
  {
    var padded := ZeroRows(len, groups) + log;
    padded[|padded| - len..]
  }

  /** Where the rotate-then-overwrite update leaves a window: the newest first, then the rest oldest first. */
  function Layout(w: seq<seq<Num>>): (rows: seq<seq<Num>>)
    requires |w| >= 1
    ensures |rows| == |w|
  {
    [w[|w| - 1]] + w[..|w| - 1]
  }

  lemma WindowSnoc(log: seq<seq<Num>>, cur: seq<Num>, len: nat, groups: nat)
    requires len >= 1
    ensures Window(log + [cur], len, groups) == Window(log, len, groups)[1..] + [cur]
  {
    var padded := ZeroRows(len, groups) + log;
    assert ZeroRows(len, groups) + (log + [cur]) == padded + [cur];
  }

  /** Observing into a laid-out window gives the layout of the window with the new value appended. */
  lemma ObserveLayout(w: seq<seq<Num>>, cur: seq<Num>)
    requires |w| >= 1
    ensures Observe(Layout(w), cur) == Layout(w[1..] + [cur])
  {
    var n := |w|;
    if n > 1 {
      var rows := Layout(w);
      assert rows[1..] == w[..n - 1];
      assert (w[1..] + [cur])[..n - 1] == w[1..];
      assert Observe(rows, cur) == [cur] + w[1..n - 1] + [w[n - 1]];
      assert w[1..] == w[1..n - 1] + [w[n - 1]];
    }
  }

  lemma WindowRect(log: seq<seq<Num>>, len: nat, groups: nat)
    requires Rect(log, groups)
    ensures Rect(Window(log, len, groups), groups)
  {
    var padded := ZeroRows(len, groups) + log;
    assert Rect(padded, groups);
  }

  /** The maximum over the laid-out history is the maximum over the window, whatever the order. */
  lemma LayoutMax(w: seq<seq<Num>>, groups: nat)
    requires |w| >= 1 && Rect(w, groups)
    ensures Rect(Layout(w), groups)
    ensures HistoryMax(Layout(w), groups) == HistoryMax(w, groups)
  {
    var rows := Layout(w);
    assert forall i :: 0 <= i < |rows| ==> rows[i] in w;
    forall g | 0 <= g < groups
      ensures SeqMax(Column(rows, g)) == SeqMax(Column(w, g))
    {
      var a, b := Column(rows, g), Column(w, g);
      forall x
        ensures x in a <==> x in b
      {
        if x in a {
          var i :| 0 <= i < |a| && a[i] == x;
          if i == 0 {
            assert b[|w| - 1] == x;
          } else {
            assert b[i - 1] == x;
          }
        }
        if x in b {
          var i :| 0 <= i < |b| && b[i] == x;
          if i == |w| - 1 {
            assert a[0] == x;
          } else {
            assert a[i + 1] == x;
          }
        }
      }
      SeqMaxSameValues(a, b);
    }
  }

  // ---------------------------------------------------------------------------
  // The scale

  /**
   * One group's new scale: amax / quant_max where amax is finite and positive,
   * the previous scale otherwise; then, when forced, 2^floor(log2(sf)).
   */
  function ScaleStep(amax: Num, prev: Num, qmax: real, pow2: bool): (s: Num)
    ensures !pow2 && amax.Finite? && amax.r > 0.0 ==> s == DivNum(amax, Finite(qmax))
    ensures !pow2 && !(amax.Finite? && amax.r > 0.0) ==> s == prev
    ensures pow2 && amax.Finite? && amax.r > 0.0 ==> s == SnapPow2(DivNum(amax, Finite(qmax)))
    ensures pow2 && !(amax.Finite? && amax.r > 0.0) ==> s == SnapPow2(prev)
  {
    var sf := if amax.Finite? && amax.r > 0.0 then DivNum(amax, Finite(qmax)) else prev;
    if pow2 then SnapPow2(sf) else sf
  }

  /** A positive finite scale stays positive and finite when quant_max is positive. */
  lemma ScaleStaysPositive(amax: Num, prev: Num, qmax: real, pow2: bool)
    requires prev.Finite? && prev.r > 0.0 && qmax > 0.0
    ensures var s := ScaleStep(amax, prev, qmax, pow2); s.Finite? && s.r > 0.0
  {
    if amax.Finite? && amax.r > 0.0 {
      var q := amax.r / qmax;
      assert q > 0.0;
    }
  }

  /** A zero or non-finite amax leaves the scale alone; a forced power of two stays a power of two. */
  lemma DegenerateAmaxKeepsScale(amax: Num, prev: Num, qmax: real, pow2: bool)
    requires amax.NonFinite? || amax.r <= 0.0
    requires pow2 ==> exists k :: prev == Finite(Pow2Real(k))
    ensures ScaleStep(amax, prev, qmax, pow2) == prev
  {
    if pow2 {
      var k :| prev == Finite(Pow2Real(k));
      SnapPow2OfPow2(k);
    }
  }

  /** torch.where over the groups, then the optional snap. */
  function NewScale(amax: seq<Num>, prev: seq<Num>, qmax: real, pow2: bool): (s: seq<Num>)
    requires |amax| == |prev|
    ensures |s| == |prev|
  {
    seq(|prev|, g requires 0 <= g < |prev| => ScaleStep(amax[g], prev[g], qmax, pow2))
  }

  // ---------------------------------------------------------------------------
  // The observer as a state machine over (history, scale)

  datatype ObsState = ObsState(rows: seq<seq<Num>>, scale: seq<Num>)

  /** One observed call: the scale comes from the history before the new amax is recorded. */
  function Step(st: ObsState, cur: seq<Num>, qmax: real, pow2: bool): ObsState
    requires |st.rows| >= 1 && Rect(st.rows, |st.scale|)
  {
    ObsState(Observe(st.rows, cur), NewScale(HistoryMax(st.rows, |st.scale|), st.scale, qmax, pow2))
  }

  /** The state after the lazy allocation (zeros and ones) and a run of observed calls. */
  function Run(log: seq<seq<Num>>, len: nat, groups: nat, qmax: real, pow2: bool): (st: ObsState)
    requires len >= 1 && Rect(log, groups)
    ensures |st.rows| == len && |st.scale| == groups && Rect(st.rows, groups)
  {
    if log == [] then ObsState(ZeroRows(len, groups), Ones(groups))
    else
      var prev := Run(log[..|log| - 1], len, groups, qmax, pow2);
      var st := Step(prev, log[|log| - 1], qmax, pow2);
      assert Rect(st.rows, groups) by {
        var rolled := if len > 1 then prev.rows[1..] + [prev.rows[0]] else prev.rows;
        assert Rect(rolled, groups);
      }
      st
  }

  lemma RunSnoc(log: seq<seq<Num>>, cur: seq<Num>, len: nat, groups: nat, qmax: real, pow2: bool)
    requires len >= 1 && Rect(log, groups) && |cur| == groups
    ensures Rect(log + [cur], groups)
    ensures Run(log + [cur], len, groups, qmax, pow2) == Step(Run(log, len, groups, qmax, pow2), cur, qmax, pow2)
  {
    assert (log + [cur])[..|log|] == log;
  }

  /**
   * After any run of observed calls the history is the layout of the last
   * `len` observations, and the scale of the next call is computed from
   * their maximum, zeros standing in before the first observation.
   */
  lemma {:induction false} RunIsWindow(log: seq<seq<Num>>, len: nat, groups: nat, qmax: real, pow2: bool)
    requires len >= 1 && Rect(log, groups)
    ensures Run(log, len, groups, qmax, pow2).rows == Layout(Window(log, len, groups))
    ensures HistoryMax(Run(log, len, groups, qmax, pow2).rows, groups) == HistoryMax(Window(log, len, groups), groups)
  {
    var w := Window(log, len, groups);
    if log == [] {
      assert ZeroRows(len, groups) + log == ZeroRows(len, groups);
      assert Layout(w) == ZeroRows(len, groups);
    } else {
      var init, cur := log[..|log| - 1], log[|log| - 1];
      assert log == init + [cur];
      RunIsWindow(init, len, groups, qmax, pow2);
      WindowSnoc(init, cur, len, groups);
      ObserveLayout(Window(init, len, groups), cur);
    }
    WindowRect(log, len, groups);
    LayoutMax(w, groups);
  }

  /** The first observed call after allocation keeps the scale at 1: the history it reads is all zeros. */
  lemma FirstCallKeepsScale(cur: seq<Num>, len: nat, qmax: real)
    requires len >= 1
    ensures Run([cur], len, |cur|, qmax, false).scale == Ones(|cur|)
  {
    var z := ZeroRows(len, |cur|);
    assert [cur][..0] == [];
    forall g | 0 <= g < |cur|
      ensures SeqMax(Column(z, g)) == Finite(0.0)
    {
      var c := Column(z, g);
      assert forall i :: 0 <= i < |c| ==> c[i] == Finite(0.0);
    }
  }

  /**
   * Four single-group observations 2, 4, 8, 16 with a history of four and
   * quant_max 8: the last call reads the maxima of calls one to three, so the
   * scale ends at 8 / 8 = 1.
   */
  lemma FourObservations()
    ensures Run([[Finite(2.0)], [Finite(4.0)], [Finite(8.0)], [Finite(16.0)]], 4, 1, 8.0, false).scale == [Finite(1.0)]
  {
    var log := [[Finite(2.0)], [Finite(4.0)], [Finite(8.0)], [Finite(16.0)]];
    var init := log[..3];
    assert init == [[Finite(2.0)], [Finite(4.0)], [Finite(8.0)]];
    RunIsWindow(init, 4, 1, 8.0, false);
    assert Zeros(1) == [Finite(0.0)];
    assert ZeroRows(4, 1) == [[Finite(0.0)], [Finite(0.0)], [Finite(0.0)], [Finite(0.0)]];
    var w := Window(init, 4, 1);
    assert w == [[Finite(0.0)], [Finite(2.0)], [Finite(4.0)], [Finite(8.0)]];
    var c := Column(w, 0);
    assert c == [Finite(0.0), Finite(2.0), Finite(4.0), Finite(8.0)];
    assert SeqMax(c) == Finite(8.0);
    assert log[..3] == init;
  }

  // ---------------------------------------------------------------------------
  // Fake quantization of one value

  /**
   * input / scale, then the table lookup of _quantize on the bit pattern
   * `encode` gives the quotient, then * scale. Encoding a float as binary32 or
   * bfloat16 bits is a parameter.
   */
  function FakeQuantValue(x: Num, s: Num, encode: Num -> Input, qvalues: seq<Num>): (y: Num)
    requires |qvalues| == 0x1_0000
    ensures exists i :: 0 <= i < |qvalues| && y == MulNum(qvalues[i], s)
  {
    var q := Quantize(encode(DivNum(x, s)), qvalues);
    var i :| 0 <= i < |qvalues| && qvalues[i] == q;
    MulNum(q, s)
  }

  /** The scale a group uses: its own, or the one scale of a single-element scale buffer. */
  function ScaleFor(scale: seq<Num>, g: nat): Num
    requires |scale| >= 1 && (|scale| == 1 || g < |scale|)
  {
    if |scale| == 1 then scale[0] else scale[g]
  }

  /** The output of the fake quantizer: every value quantized on its group's scale, or the input when disabled. */
  function FakeQuantOutput(x: seq<seq<Num>>, scale: seq<Num>, enabled: bool, encode: Num -> Input, qvalues: seq<Num>): (y: seq<seq<Num>>)
    requires |qvalues| == 0x1_0000
    requires enabled ==> |scale| == 1 || |scale| == |x|
    requires enabled ==> |scale| >= 1
    ensures |y| == |x|
    ensures !enabled ==> y == x
    ensures forall g :: 0 <= g < |x| ==> |y[g]| == |x[g]|
  {
    if !enabled then x
    else
      seq(|x|, g requires 0 <= g < |x| =>
        seq(|x[g]|, j requires 0 <= j < |x[g]| => FakeQuantValue(x[g][j], ScaleFor(scale, g), encode, qvalues)))
  }

  // ---------------------------------------------------------------------------
  // The module

  datatype ObsError =
    | MicroscalingPath         // the microscaling branch is not part of this model
    | UnsupportedQScheme       // _get_amax with a scheme it does not reduce for
    | MissingChannelAxis       // ch_axis None where the scheme needs an axis
    | MissingBlockSize         // block_size None compared with 0
    | EmptyGroup               // torch.amax over an empty reduction
    | NegativeHistoryLength    // torch.zeros with a negative size
    | EmptyHistory             // torch.amax over a history with no rows
    | ShapeMismatch            // the input's groups do not match the buffers
    | MissingQuantMax          // amax / None

  /** The constructor arguments of FusedAmaxObsFakeQuantize that the forward pass reads. */
  datatype ObsConfig = ObsConfig(
    qscheme: Option<ObsScheme>,
    quantMax: Option<real>,
    historyLen: int,
    chAxis: Option<int>,
    blockSize: Option<int>,
    forcePow2: bool)

  /**
   * What _get_amax raises on an input given by its groups: a scheme it has no
   * reduction for, a missing channel axis, or an empty reduction.
   */
  function AmaxInputError(cfg: ObsConfig, x: seq<seq<Num>>): (e: Option<ObsError>)
    ensures e.None? <==>
      cfg.qscheme.Some? && cfg.qscheme.value != Microscaling &&
      (cfg.qscheme.value != PerTensorSymmetric ==> cfg.chAxis.Some?) &&
      |x| >= 1 && forall g :: 0 <= g < |x| ==> |x[g]| >= 1
  {
    if cfg.qscheme.None? || cfg.qscheme.value == Microscaling then Some(UnsupportedQScheme)
    else if cfg.qscheme.value != PerTensorSymmetric && cfg.chAxis.None? then Some(MissingChannelAxis)
    else if |x| == 0 || exists g :: 0 <= g < |x| && |x[g]| == 0 then Some(EmptyGroup)
    else None
  }

  /** torch.roll(rows, -1, 0) when there is more than one row: slot i takes old slot i + 1, the last slot old slot 0. */
  function Roll(rows: seq<seq<Num>>): (r: seq<seq<Num>>)
    ensures |r| == |rows|
    ensures |rows| > 1 ==> r[|rows| - 1] == rows[0] && forall i :: 0 <= i < |rows| - 1 ==> r[i] == rows[i + 1]
    ensures |rows| <= 1 ==> r == rows
  {
    if |rows| > 1 then rows[1..] + [rows[0]] else rows
  }

  /** The observer's history update is the roll followed by the write of slot 0. */
  lemma ObserveIsRollThenWrite(rows: seq<seq<Num>>, cur: seq<Num>, groups: nat)
    requires |rows| >= 1
    ensures Observe(rows, cur) == Roll(rows)[0 := cur]
    ensures Rect(rows, groups) ==> Rect(Roll(rows), groups)
    ensures Rect(rows, groups) && |cur| == groups ==> Rect(Observe(rows, cur), groups)
  {
  }

  /**
   * The buffers after the lazy allocation of FusedAmaxObsFakeQuantize.forward:
   * while a scheme is set and the history is empty, H rows of zeros and a
   * scale of ones, shaped like the input's amax.
   */
  function Allocated(cfg: ObsConfig, st: ObsState, x: seq<seq<Num>>): (b: ObsState)
  {
    if cfg.qscheme.Some? && st.rows == [] && cfg.historyLen >= 0 then
      ObsState(ZeroRows(cfg.historyLen, |x|), Ones(|x|))
    else st
  }

  /**
   * FusedAmaxObsFakeQuantize.forward up to the fake quantization, on values:
   * the error raised, if any, and the buffers as the call leaves them, also
   * when it raises part-way through the observer branch.
   */
  function StepOutcome(cfg: ObsConfig, st: ObsState, x: seq<seq<Num>>, observing: bool): (r: (Option<ObsError>, ObsState))
    requires Rect(st.rows, |st.scale|) && |st.scale| >= 1
    ensures Rect(r.1.rows, |r.1.scale|) && |r.1.scale| >= 1
  {
    if cfg.qscheme == Some(Microscaling) then (Some(MicroscalingPath), st)
    else if cfg.qscheme.Some? && st.rows == [] && AmaxInputError(cfg, x).Some? then (AmaxInputError(cfg, x), st)
    else if cfg.qscheme.Some? && st.rows == [] && cfg.historyLen < 0 then (Some(NegativeHistoryLength), st)
    else
      var b := Allocated(cfg, st, x);
      if cfg.qscheme == Some(PerVectorSymmetric) && cfg.chAxis.None? then (Some(MissingChannelAxis), b)
      else if cfg.qscheme == Some(PerVectorSymmetric) && cfg.blockSize.None? then (Some(MissingBlockSize), b)
      else if !observing then (None, b)
      else if b.rows == [] then (Some(EmptyHistory), b)
      else ObserveOutcome(cfg, b, x)
  }

  /**
   * The observer branch on allocated buffers: the amax of the history as it
   * stands, the roll, the input checks, the write of slot 0, the division by
   * quant_max and the new scale, stopping where the source raises.
   */
  function ObserveOutcome(cfg: ObsConfig, b: ObsState, x: seq<seq<Num>>): (r: (Option<ObsError>, ObsState))
    requires Rect(b.rows, |b.scale|) && |b.scale| >= 1 && |b.rows| >= 1
    ensures Rect(r.1.rows, |r.1.scale|) && |r.1.scale| >= 1
  {
    var amax := HistoryMax(b.rows, |b.scale|);
    ObserveIsRollThenWrite(b.rows, [], |b.scale|);
    if AmaxInputError(cfg, x).Some? then (AmaxInputError(cfg, x), ObsState(Roll(b.rows), b.scale))
    else if |x| != |b.scale| then (Some(ShapeMismatch), ObsState(Roll(b.rows), b.scale))
    else
      var rows := Observe(b.rows, Amaxes(x));
      ObserveIsRollThenWrite(b.rows, Amaxes(x), |b.scale|);
      if cfg.quantMax.None? then (Some(MissingQuantMax), ObsState(rows, b.scale))
      else (None, ObsState(rows, NewScale(amax, b.scale, cfg.quantMax.value, cfg.forcePow2)))
  }

  /** The arguments FusedAmaxObsFakeQuantFunction refuses before observing: a per-vector scheme without axis or block size. */
  predicate PerVectorArgsMissing(cfg: ObsConfig)
  {
    cfg.qscheme == Some(PerVectorSymmetric) && (cfg.chAxis.None? || cfg.blockSize.None?)
  }

  /**
   * An observed call that raises nothing is one step of the observer from the
   * allocated buffers: the history takes this call's amaxes and the scale
   * follows the history as it stood before them.
   */
  lemma ObservedCallSteps(cfg: ObsConfig, st: ObsState, x: seq<seq<Num>>)
    requires Rect(st.rows, |st.scale|) && |st.scale| >= 1
    requires StepOutcome(cfg, st, x, true).0.None?
    ensures cfg.quantMax.Some? && AmaxInputError(cfg, x).None?
    ensures var b := Allocated(cfg, st, x);
      |b.rows| >= 1 && Rect(b.rows, |b.scale|) && |b.scale| == |x| &&
      StepOutcome(cfg, st, x, true).1 == Step(b, Amaxes(x), cfg.quantMax.value, cfg.forcePow2)
  {
  }

  /**
   * Once the history exists, a call that raises in the observer branch keeps
   * the scale but has already moved the history: rolled for a bad input,
   * rolled and written for a missing quant_max.
   */
  lemma RaisesAfterRoll(cfg: ObsConfig, st: ObsState, x: seq<seq<Num>>)
    requires Rect(st.rows, |st.scale|) && |st.scale| >= 1 && |st.rows| >= 1
    requires cfg.qscheme.Some? && cfg.qscheme.value != Microscaling && !PerVectorArgsMissing(cfg)
    ensures var out := StepOutcome(cfg, st, x, true);
      (out.0.Some? ==> out.1.scale == st.scale) &&
      (AmaxInputError(cfg, x).Some? ==> out == (AmaxInputError(cfg, x), ObsState(Roll(st.rows), st.scale))) &&
      (AmaxInputError(cfg, x).None? && |x| != |st.scale| ==> out == (Some(ShapeMismatch), ObsState(Roll(st.rows), st.scale))) &&
      (AmaxInputError(cfg, x).None? && |x| == |st.scale| && cfg.quantMax.None? ==>
        out == (Some(MissingQuantMax), ObsState(Observe(st.rows, Amaxes(x)), st.scale)))
  {
  }

  /**
   * With the observer off and the history allocated, a call raises nothing
   * and changes nothing, whatever the input, an empty one included.
   */
  lemma DisabledKeepsBuffers(cfg: ObsConfig, st: ObsState, x: seq<seq<Num>>)
    requires Rect(st.rows, |st.scale|) && |st.scale| >= 1 && |st.rows| >= 1
    requires cfg.qscheme != Some(Microscaling) && !PerVectorArgsMissing(cfg)
    ensures StepOutcome(cfg, st, x, false) == (None, st)
  {
  }

  /** With the observer off, the first call with a scheme still allocates the buffers. */
  lemma DisabledStillAllocates(cfg: ObsConfig, x: seq<seq<Num>>)
    requires cfg.qscheme.Some? && cfg.qscheme.value != Microscaling && !PerVectorArgsMissing(cfg)
    requires AmaxInputError(cfg, x).None? && cfg.historyLen >= 0
    ensures StepOutcome(cfg, ObsState([], [Finite(1.0)]), x, false) ==
      (None, ObsState(ZeroRows(cfg.historyLen, |x|), Ones(|x|)))
  {
  }

  /** The fake quantization after the observer: the shape check of the scale, then the output. */
  function FakeQuantStep(x: seq<seq<Num>>, scale: seq<Num>, enabled: bool, encode: Num -> Input, qvalues: seq<Num>): (r: Result<seq<seq<Num>>, ObsError>)
    requires |qvalues| == 0x1_0000 && |scale| >= 1
    ensures r.Err? <==> enabled && |scale| != 1 && |scale| != |x|
    ensures r.Ok? ==> r.value == FakeQuantOutput(x, scale, enabled, encode, qvalues)
  {
    if enabled && !(|scale| == 1 || |scale| == |x|) then Err(ShapeMismatch)
    else Ok(FakeQuantOutput(x, scale, enabled, encode, qvalues))
  }

  /** amax_history.copy_(torch.roll(amax_history, -1, 0)) when there is more than one row. */
  method RollRows(history: array<seq<Num>>)
    modifies history
    ensures history[..] == Roll(old(history[..]))
  {
    var n := history.Length;
    if n > 1 {
      var rolled := history[1..] + [history[0]];
      forall i | 0 <= i < n {
        history[i] := rolled[i];
      }
      assert history[..] == rolled;
    }
  }

  /** scale.copy_(sf). */
  method CopyInto(a: array<Num>, s: seq<Num>)
    requires a.Length == |s|
    modifies a
    ensures a[..] == s
  {
    forall g | 0 <= g < |s| {
      a[g] := s[g];
    }
  }

  class AmaxFakeQuantize {
    const dtype: string
    const qscheme: Option<ObsScheme>
    const quantMax: Option<real>
    const historyLen: int
    const chAxis: Option<int>
    const blockSize: Option<int>
    const forcePow2: bool
    /** The rounding function applied to all 65536 bfloat16 values, indexed by bit pattern. */
    const qvalues: seq<Num>

    var observerEnabled: bool
    var fakeQuantEnabled: bool
    var history: array<seq<Num>>
    var scale: array<Num>
    /** The amaxes recorded since the history was allocated. */
    ghost var log: seq<seq<Num>>
    /** Whether the buffers still equal the state after `log`; a call that raised part-way clears it. */
    ghost var tracked: bool

    function Config(): ObsConfig
    {
      ObsConfig(qscheme, quantMax, historyLen, chAxis, blockSize, forcePow2)
    }

    /** The quant_max the scale divides by (irrelevant while nothing was recorded). */
    function Qmax(): real
    {
      if quantMax.Some? then quantMax.value else 0.0
    }

    /** The buffers as a value. */
    function Buffers(): ObsState
      reads this, history, scale
    {
      ObsState(history[..], scale[..])
    }

    /**
     * The buffers keep their shape, and while tracked they equal the state
     * after the recorded observations.
     */
    ghost predicate Valid()
      reads this, history, scale
    {
      |qvalues| == 0x1_0000 && scale.Length >= 1 && Rect(history[..], scale.Length) &&
      (history.Length > 0 ==> qscheme.Some? && history.Length == historyLen) &&
      (history.Length == 0 ==> tracked && log == []) &&
      (tracked && history.Length > 0 ==>
        Rect(log, scale.Length) && (quantMax.None? ==> log == []) &&
        history[..] == Run(log, history.Length, scale.Length, Qmax(), forcePow2).rows &&
        scale[..] == Run(log, history.Length, scale.Length, Qmax(), forcePow2).scale)
    }

    /** FusedAmaxObsFakeQuantize.__init__ once the dtype has been dispatched. */
    constructor (dtype: string, qscheme: Option<ObsScheme>, quantMax: Option<real>, historyLen: int,
                 chAxis: Option<int>, blockSize: Option<int>, forcePow2: bool, qvalues: seq<Num>)
      requires |qvalues| == 0x1_0000
      ensures Valid()
      ensures this.dtype == dtype && this.qscheme == qscheme && this.quantMax == quantMax
      ensures this.historyLen == historyLen && this.chAxis == chAxis && this.blockSize == blockSize
      ensures this.forcePow2 == forcePow2 && this.qvalues == qvalues
      ensures observerEnabled == qscheme.Some? && fakeQuantEnabled
      ensures history.Length == 0 && scale[..] == [Finite(1.0)]
      ensures fresh(history) && fresh(scale)
    {
      this.dtype, this.qscheme, this.quantMax, this.historyLen := dtype, qscheme, quantMax, historyLen;
      this.chAxis, this.blockSize, this.forcePow2, this.qvalues := chAxis, blockSize, forcePow2, qvalues;
      observerEnabled := qscheme.Some?;
      fakeQuantEnabled := true;
      history := new seq<Num>[0];
      scale := new Num[1](_ => Finite(1.0));
      log := [];
      tracked := true;
    }

    method EnableObserver(on: bool)
      modifies this`observerEnabled
      ensures observerEnabled == on
    {
      observerEnabled := on;
    }

    method EnableFakeQuant(on: bool)
      modifies this`fakeQuantEnabled
      ensures fakeQuantEnabled == on
    {
      fakeQuantEnabled := on;
    }

    /** The lazy allocation: H rows of zeros and a scale of ones, one entry per group. */
    method Allocate(groups: nat)
      requires Valid() && history.Length == 0 && historyLen >= 0 && groups >= 1 && qscheme.Some?
      modifies this`history, this`scale
      ensures Valid()
      ensures fresh(history) && fresh(scale) && log == old(log) && tracked == old(tracked)
      ensures history[..] == ZeroRows(historyLen, groups) && scale[..] == Ones(groups)
    {
      history := new seq<Num>[historyLen](_ => Zeros(groups));
      scale := new Num[groups](_ => Finite(1.0));
      assert history[..] == ZeroRows(historyLen, groups);
      assert scale[..] == Ones(groups);
    }

    /**
     * FusedAmaxObsFakeQuantize.forward and the observer branch of
     * FusedAmaxObsFakeQuantFunction.forward: allocation, the argument checks,
     * then the new scale from the history as it was and the rotated history
     * with this call's amaxes in slot 0, stopping where the source raises.
     */
    method ObserveStep(x: seq<seq<Num>>) returns (failure: Option<ObsError>)
      requires Valid()
      modifies this`history, this`scale, this`log, this`tracked, history, scale
      ensures Valid()
      ensures (failure, Buffers()) == StepOutcome(Config(), old(Buffers()), x, observerEnabled)
      ensures failure.None? && observerEnabled ==> AmaxInputError(Config(), x).None? && scale.Length == |x|
      ensures failure.None? && observerEnabled && old(tracked) ==>
        tracked && log == (if old(history.Length) == 0 then [] else old(log)) + [Amaxes(x)]
      ensures failure.None? && !observerEnabled ==> tracked == old(tracked) && log == old(log)
    {
      ghost var st := Buffers();
      if qscheme == Some(Microscaling) {
        return Some(MicroscalingPath);
      }
      if qscheme.Some? && history.Length == 0 {
        var e := AmaxInputError(Config(), x);
        if e.Some? {
          return e;
        }
        if historyLen < 0 {
          return Some(NegativeHistoryLength);
        }
        Allocate(|x|);
      }
      assert Buffers() == Allocated(Config(), st, x);
      if qscheme == Some(PerVectorSymmetric) && chAxis.None? {
        return Some(MissingChannelAxis);
      }
      if qscheme == Some(PerVectorSymmetric) && blockSize.None? {
        return Some(MissingBlockSize);
      }
      if !observerEnabled {
        return None;
      }
      if history.Length == 0 {
        return Some(EmptyHistory);
      }
      failure := ObserveAllocated(x);
    }

    /** The observer branch on allocated buffers, as ObserveOutcome describes it. */
    method ObserveAllocated(x: seq<seq<Num>>) returns (failure: Option<ObsError>)
      requires Valid() && history.Length >= 1
      modifies this`log, this`tracked, history, scale
      ensures Valid()
      ensures (failure, Buffers()) == ObserveOutcome(Config(), old(Buffers()), x)
      ensures failure.None? ==> AmaxInputError(Config(), x).None? && scale.Length == |x|
      ensures failure.None? && old(tracked) ==> tracked && log == old(log) + [Amaxes(x)]
    {
      ghost var b := Buffers();
      var prevScale := scale[..];
      var amax := HistoryMax(history[..], scale.Length);
      ObserveIsRollThenWrite(b.rows, [], scale.Length);
      RollRows(history);
      var e := AmaxInputError(Config(), x);
      if e.Some? {
        tracked := false;
        return e;
      }
      if |x| != scale.Length {
        tracked := false;
        return Some(ShapeMismatch);
      }
      var cur := Amaxes(x);
      history[0] := cur;
      ObserveIsRollThenWrite(b.rows, cur, scale.Length);
      assert history[..] == Observe(b.rows, cur);
      if quantMax.None? {
        tracked := false;
        return Some(MissingQuantMax);
      }
      CopyInto(scale, NewScale(amax, prevScale, quantMax.value, forcePow2));
      if tracked {
        RunSnoc(log, cur, history.Length, |cur|, quantMax.value, forcePow2);
        log := log + [cur];
      }
      failure := None;
    }

    /**
     * FusedAmaxObsFakeQuantize.forward followed by
     * FusedAmaxObsFakeQuantFunction.forward, on an input given by its groups:
     * the buffers as StepOutcome leaves them, then the fake quantization on
     * the resulting scale.
     */
    method Forward(x: seq<seq<Num>>, encode: Num -> Input) returns (r: Result<seq<seq<Num>>, ObsError>)
      requires Valid()
      modifies this`history, this`scale, this`log, this`tracked, history, scale
      ensures Valid()
      ensures var out := StepOutcome(Config(), old(Buffers()), x, observerEnabled);
        Buffers() == out.1 &&
        (out.0.Some? ==> r == Err(out.0.value)) &&
        (out.0.None? ==> r == FakeQuantStep(x, out.1.scale, fakeQuantEnabled, encode, qvalues))
      ensures r.Ok? && observerEnabled && old(tracked) ==>
        AmaxInputError(Config(), x).None? && tracked &&
        log == (if old(history.Length) == 0 then [] else old(log)) + [Amaxes(x)]
    {
      var failure := ObserveStep(x);
      if failure.Some? {
        return Err(failure.value);
      }
      r := FakeQuantStep(x, scale[..], fakeQuantEnabled, encode, qvalues);
    }
  }
}

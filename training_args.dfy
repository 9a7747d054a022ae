/**
 * The quantization-configuration mini-language `dtype[,key=value]*`
 * (QuantizationConfig.from_str) with its tables, and the QSpecs dictionary
 * that fills in defaults for the keys a caller did not supply.
 */
module TrainingArgs {
  import opened Wrappers
  import opened Numbers
  import opened Strings

  /** The QScheme enum: its three members and their values. */
  datatype QScheme = PerTensor | PerChannel | PerVector

  function SchemeName(q: QScheme): string
  {
    match q
    case PerTensor => "per_tensor"
    case PerChannel => "per_channel"
    case PerVector => "per_vector"
  }

  /** QScheme(value): the member whose value is exactly the given text. */
  function ParseQScheme(s: string): (r: Option<QScheme>)
    ensures r.Some? ==> SchemeName(r.value) == s
    ensures (exists q :: SchemeName(q) == s) ==> r.Some?
  {
    if s == "per_tensor" then Some(PerTensor)
    else if s == "per_channel" then Some(PerChannel)
    else if s == "per_vector" then Some(PerVector)
    else None
  }

  /** DTYPE_TO_QUANT_MAX.get(dtype). */
  function DtypeQuantMax(dtype: string): Option<real>
  {
    if dtype == "int8" then Some(127.0)
    else if dtype == "int4" then Some(7.0)
    else if dtype == "posit8_1" then Some(64.0)
    else if dtype == "fp8_e4m3" then Some(448.0)
    else if dtype == "fp8_e5m2" then Some(57344.0)
    else if dtype == "fp4_e2m1" then Some(6.0)
    else None
  }

  /** ABBREV_MAP.get(key, key): abbreviations expand, anything else passes through. */
  function ExpandKey(key: string): string
  {
    if key == "dt" then "dtype"
    else if key == "qs" then "qscheme"
    else if key == "qmax" then "quant_max"
    else if key == "ahl" then "amax_history_len"
    else if key == "ax" then "ch_axis"
    else if key == "bs" then "block_size"
    else key
  }

  /** The keys of PARAMS_TYPE. */
  datatype Param = DtypeKey | QSchemeKey | QuantMaxKey | AmaxHistoryLenKey | ChAxisKey | BlockSizeKey

  function ParamName(k: Param): string
  {
    match k
    case DtypeKey => "dtype"
    case QSchemeKey => "qscheme"
    case QuantMaxKey => "quant_max"
    case AmaxHistoryLenKey => "amax_history_len"
    case ChAxisKey => "ch_axis"
    case BlockSizeKey => "block_size"
  }

  /** `key in PARAMS_TYPE`, answering which parameter the key names. */
  function ParamOf(key: string): (r: Option<Param>)
    ensures r.Some? ==> ParamName(r.value) == key
    ensures (exists k :: ParamName(k) == key) ==> r.Some?
  {
    if key == "dtype" then Some(DtypeKey)
    else if key == "qscheme" then Some(QSchemeKey)
    else if key == "quant_max" then Some(QuantMaxKey)
    else if key == "amax_history_len" then Some(AmaxHistoryLenKey)
    else if key == "ch_axis" then Some(ChAxisKey)
    else if key == "block_size" then Some(BlockSizeKey)
    else None
  }

  const AllParams: set<Param> :=
    {DtypeKey, QSchemeKey, QuantMaxKey, AmaxHistoryLenKey, ChAxisKey, BlockSizeKey}

  lemma EveryParamListed()
    ensures forall k: Param :: k in AllParams
  {
    forall k: Param ensures k in AllParams {
      match k
      case DtypeKey =>
      case QSchemeKey =>
      case QuantMaxKey =>
      case AmaxHistoryLenKey =>
      case ChAxisKey =>
      case BlockSizeKey =>
    }
  }

  /** A parameter value as the params dict holds it. */
  datatype Value = VNone | VStr(s: string) | VScheme(q: QScheme) | VFloat(x: Num) | VInt(i: int)

  datatype ConfigError =
    | MalformedField(item: string)        // `key, value = item.split('=')` does not unpack
    | UnknownArgument(key: string)        // key not in PARAMS_TYPE after expansion
    | InvalidValue(key: string, text: string)  // the per-key type conversion fails
    | MissingQuantMax(scheme: QScheme)    // a qscheme without a resolvable quant_max

  /** PARAMS_TYPE[key](text): str, QScheme, float or int. */
  function Convert(k: Param, text: string): (r: Result<Value, ConfigError>)
    ensures k == DtypeKey ==> r == Ok(VStr(text))
    ensures k == QSchemeKey ==> (r.Ok? <==> exists q :: SchemeName(q) == text)
    ensures r.Ok? && k == QSchemeKey ==> r.value.VScheme? && SchemeName(r.value.q) == text
    ensures k == QuantMaxKey ==> (r.Ok? <==> ParseFloat(text).Some?)
    ensures r.Ok? && k == QuantMaxKey ==> r.value == VFloat(ParseFloat(text).value)
    ensures k in {AmaxHistoryLenKey, ChAxisKey, BlockSizeKey} ==> (r.Ok? <==> ParseInt(text).Some?)
    ensures r.Ok? && k in {AmaxHistoryLenKey, ChAxisKey, BlockSizeKey} ==> r.value == VInt(ParseInt(text).value)
    ensures r.Err? ==> r.error == InvalidValue(ParamName(k), text)
  {
    match k
    case DtypeKey => Ok(VStr(text))
    case QSchemeKey =>
      (match ParseQScheme(text)
       case Some(q) => Ok(VScheme(q))
       case None => Err(InvalidValue(ParamName(k), text)))
    case QuantMaxKey =>
      (match ParseFloat(text)
       case Some(x) => Ok(VFloat(x))
       case None => Err(InvalidValue(ParamName(k), text)))
    case _ =>
      (match ParseInt(text)
       case Some(i) => Ok(VInt(i))
       case None => Err(InvalidValue(ParamName(k), text)))
  }

  /** Converting the text Python would print for a value gives the value back. */
  lemma ConvertRoundTrip(q: QScheme, i: int, n: nat)
    ensures Convert(QSchemeKey, SchemeName(q)) == Ok(VScheme(q))
    ensures Convert(QuantMaxKey, NatToString(n)) == Ok(VFloat(Finite(n as real)))
    ensures forall k :: k in {AmaxHistoryLenKey, ChAxisKey, BlockSizeKey} ==>
      Convert(k, IntToString(i)) == Ok(VInt(i))
  {
    FloatOfNatString(n);
    IntRoundTrip(i);
  }

  /** One `key=value` field after the dtype: split, expand, check the key, convert. */
  function ParseField(item: string): (r: Result<(Param, Value), ConfigError>)
  {
    var parts := Split(item, '=');
    if |parts| != 2 then Err(MalformedField(item))
    else
      var key := ExpandKey(parts[0]);
      match ParamOf(key)
      case None => Err(UnknownArgument(key))
      case Some(k) =>
        match Convert(k, parts[1])
        case Ok(v) => Ok((k, v))
        case Err(e) => Err(e)
  }

  /** A field is refused unless it is one `=`-separated pair whose key names a parameter. */
  lemma ParseFieldCases(item: string)
    ensures ParseField(item).Ok? ==>
      |Split(item, '=')| == 2 && ParamOf(ExpandKey(Split(item, '=')[0])) == Some(ParseField(item).value.0)
    ensures |Split(item, '=')| != 2 ==> ParseField(item) == Err(MalformedField(item))
    ensures |Split(item, '=')| == 2 && ParamOf(ExpandKey(Split(item, '=')[0])).None? ==>
      ParseField(item) == Err(UnknownArgument(ExpandKey(Split(item, '=')[0])))
  {
  }

  /** The params dict before any field is applied. */
  function Defaults(first: string): (d: map<Param, Value>)
    ensures d.Keys == AllParams
    ensures forall k: Param :: k in d
  {
    EveryParamListed();
    map[
      DtypeKey := VStr(first),
      QSchemeKey := VNone,
      QuantMaxKey := (match DtypeQuantMax(first) case Some(q) => VFloat(Finite(q)) case None => VNone),
      AmaxHistoryLenKey := VInt(50),
      ChAxisKey := VInt(1),
      BlockSizeKey := VInt(32)
    ]
  }

  datatype QuantizationConfig = QuantizationConfig(
    dtype: string,
    qscheme: Option<QScheme>,
    quantMax: Option<Num>,
    amaxHistoryLen: int,
    chAxis: int,
    blockSize: int)

  type Parsed = Result<(Param, Value), ConfigError>

  /** The fields after the dtype, each parsed on its own. */
  function ParseFields(fields: seq<string>): (rs: seq<Parsed>)
    requires |fields| >= 1
    ensures |rs| == |fields| - 1
    ensures forall i :: 1 <= i < |fields| ==> rs[i - 1] == ParseField(fields[i])
  {
    seq(|fields| - 1, i requires 0 <= i < |fields| - 1 => ParseField(fields[i + 1]))
  }

  /** The error of the first field that does not parse, if any. */
  function FirstFailure(rs: seq<Parsed>): (r: Option<ConfigError>)
    ensures r.None? <==> forall i :: 0 <= i < |rs| ==> rs[i].Ok?
  {
    if rs == [] then None
    else if rs[0].Err? then Some(rs[0].error)
    else FirstFailure(rs[1..])
  }

  lemma {:induction false} FirstFailureAppend(a: seq<Parsed>, b: seq<Parsed>)
    requires FirstFailure(a).None?
    ensures FirstFailure(a + b) == FirstFailure(b)
  {
    if a != [] {
      assert (a + b)[0] == a[0];
      assert (a + b)[1..] == a[1..] + b;
      FirstFailureAppend(a[1..], b);
    } else {
      assert a + b == b;
    }
  }

  /** The value the LAST field naming `k` gives it; None when no field names it. */
  function LastSetting(rs: seq<Parsed>, k: Param): Option<Value>
    requires forall i :: 0 <= i < |rs| ==> rs[i].Ok?
  {
    if rs == [] then None
    else
      var field := rs[|rs| - 1].value;
      if field.0 == k then Some(field.1) else LastSetting(rs[..|rs| - 1], k)
  }

  /** The value a parameter ends up with: its last setting, else its default. */
  function Setting(first: string, rs: seq<Parsed>, k: Param): Value
    requires forall i :: 0 <= i < |rs| ==> rs[i].Ok?
  {
    match LastSetting(rs, k)
    case Some(v) => v
    case None => Defaults(first)[k]
  }

  function ConfigOf(p: map<Param, Value>): QuantizationConfig
    requires p.Keys == AllParams
  {
    QuantizationConfig(
      if p[DtypeKey].VStr? then p[DtypeKey].s else "",
      if p[QSchemeKey].VScheme? then Some(p[QSchemeKey].q) else None,
      if p[QuantMaxKey].VFloat? then Some(p[QuantMaxKey].x) else None,
      if p[AmaxHistoryLenKey].VInt? then p[AmaxHistoryLenKey].i else 0,
      if p[ChAxisKey].VInt? then p[ChAxisKey].i else 0,
      if p[BlockSizeKey].VInt? then p[BlockSizeKey].i else 0)
  }

  /** The final check of from_str: a qscheme needs a quant_max. */
  function Finish(p: map<Param, Value>): Result<QuantizationConfig, ConfigError>
    requires p.Keys == AllParams
  {
    if p[QSchemeKey].VScheme? && p[QuantMaxKey].VNone? then Err(MissingQuantMax(p[QSchemeKey].q))
    else Ok(ConfigOf(p))
  }

  /**
   * What from_str yields, stated field by field: the first malformed field's
   * error; otherwise each parameter takes its last setting or its default,
   * and a qscheme without a quant_max is refused.
   */
  function Expected(s: string): Result<QuantizationConfig, ConfigError>
  {
    var fields := Split(Lower(s), ',');
    Outcome(fields[0], ParseFields(fields))
  }

  /** The result for a dtype field followed by the given parsed fields. */
  function Outcome(first: string, rs: seq<Parsed>): Result<QuantizationConfig, ConfigError>
  {
    match FirstFailure(rs)
    case Some(e) => Err(e)
    case None => Finish(map k | k in AllParams :: Setting(first, rs, k))
  }

  /** After the first n fields past the dtype have been applied, params holds each parameter's setting so far. */
  ghost predicate Tracks(first: string, rs: seq<Parsed>, n: nat, params: map<Param, Value>)
  {
    n <= |rs| && FirstFailure(rs[..n]).None? && params.Keys == AllParams &&
    forall k :: k in AllParams ==> params[k] == Setting(first, rs[..n], k)
  }

  lemma TracksStep(first: string, rs: seq<Parsed>, n: nat, params: map<Param, Value>)
    requires Tracks(first, rs, n, params) && n < |rs|
    ensures rs[n].Err? ==> FirstFailure(rs) == Some(rs[n].error)
    ensures rs[n].Ok? ==> Tracks(first, rs, n + 1, params[rs[n].value.0 := rs[n].value.1])
  {
    if rs[n].Err? {
      assert rs == rs[..n] + rs[n..];
      FirstFailureAppend(rs[..n], rs[n..]);
      assert rs[n..][0] == rs[n];
    } else {
      TracksOk(first, rs, n, params);
    }
  }

  lemma TracksOk(first: string, rs: seq<Parsed>, n: nat, params: map<Param, Value>)
    requires Tracks(first, rs, n, params) && n < |rs| && rs[n].Ok?
    ensures Tracks(first, rs, n + 1, params[rs[n].value.0 := rs[n].value.1])
  {
    assert rs[..n + 1] == rs[..n] + [Ok(rs[n].value)];
    FirstFailureAppend(rs[..n], [rs[n]]);
    forall k {
      LaterFieldWins(rs[..n], rs[n].value, k);
    }
  }

  /** Once every field has been applied, finishing the tracked parameters is the outcome. */
  lemma TracksAll(first: string, rs: seq<Parsed>, params: map<Param, Value>)
    requires Tracks(first, rs, |rs|, params)
    ensures Outcome(first, rs) == Finish(params)
  {
    assert rs[..|rs|] == rs;
    assert (map k | k in AllParams :: Setting(first, rs, k)) == params;
  }

  /** QuantizationConfig.from_str: lower-case, split on ',', then apply the fields in order. */
  method FromStr(s: string) returns (r: Result<QuantizationConfig, ConfigError>)
    ensures r == Expected(s)
  {
    var fields := Split(Lower(s), ',');
    ghost var rs := ParseFields(fields);
    var params := Defaults(fields[0]);
    var i := 1;
    while i < |fields|
      invariant 1 <= i <= |fields|
      invariant Tracks(fields[0], rs, i - 1, params)
    {
      TracksStep(fields[0], rs, i - 1, params);
      match ParseField(fields[i])
      case Err(e) =>
        return Err(e);
      case Ok(field) =>
        params := params[field.0 := field.1];
        i := i + 1;
    }
    TracksAll(fields[0], rs, params);
    r := Finish(params);
  }

  // ---------------------------------------------------------------------------
  // Properties of from_str

  /** With no field setting the dtype, the first comma-separated field (lower-cased) is the dtype. */
  lemma FirstFieldIsDtype(first: string, rs: seq<Parsed>)
    requires Outcome(first, rs).Ok?
    requires forall i :: 0 <= i < |rs| ==> rs[i].Ok? && rs[i].value.0 != DtypeKey
    ensures Outcome(first, rs).value.dtype == first
  {
    NeverSet(rs, DtypeKey);
  }

  lemma {:induction false} NeverSet(rs: seq<Parsed>, k: Param)
    requires forall i :: 0 <= i < |rs| ==> rs[i].Ok? && rs[i].value.0 != k
    ensures LastSetting(rs, k).None?
  {
    if rs != [] {
      NeverSet(rs[..|rs| - 1], k);
    }
  }

  /** A field-free string gives the defaults: history 50, axis 1, block 32, no scheme, tabled quant_max. */
  lemma DtypeOnlyGivesDefaults(s: string)
    requires ',' !in Lower(s)
    ensures Expected(s) == Ok(QuantizationConfig(Lower(s), None,
      (match DtypeQuantMax(Lower(s)) case Some(q) => Some(Finite(q)) case None => None),
      50, 1, 32))
  {
    SplitNoSep(Lower(s), ',');
  }

  /** A later field overrides an earlier one: the last value given for a key wins. */
  lemma LaterFieldWins(rs: seq<Parsed>, field: (Param, Value), k: Param)
    requires forall i :: 0 <= i < |rs| ==> rs[i].Ok?
    ensures LastSetting(rs + [Ok(field)], k) == (if k == field.0 then Some(field.1) else LastSetting(rs, k))
  {
    assert (rs + [Ok(field)])[..|rs|] == rs;
  }

  /** The first field that fails to parse decides the error, whatever follows it. */
  lemma FirstBadFieldDecides(first: string, rs: seq<Parsed>, i: nat)
    requires i < |rs| && rs[i].Err?
    requires forall j :: 0 <= j < i ==> rs[j].Ok?
    ensures Outcome(first, rs) == Err(rs[i].error)
  {
    assert rs == rs[..i] + rs[i..];
    FirstFailureAppend(rs[..i], rs[i..]);
    assert rs[i..][0] == rs[i];
  }

  /** Splitting "a,b" (neither containing ',') on ',' gives the two halves. */
  lemma SplitTwo(a: string, b: string, sep: char)
    requires sep !in a && sep !in b
    ensures Split(a + [sep] + b, sep) == [a, b]
  {
    SplitPrefix(a, sep, b);
    SplitNoSep(b, sep);
  }

  /** The field "dt=int8" sets the dtype to "int8". */
  lemma DtypeFieldParses()
    ensures ParseField("dt=int8") == Ok((DtypeKey, VStr("int8")))
  {
    assert "dt=int8" == "dt" + ['='] + "int8";
    SplitTwo("dt", "int8", '=');
  }

  /** The default quant_max comes from the first field only: a later dtype field does not recompute it. */
  lemma QuantMaxNotRecomputed()
    ensures Outcome("fp8_e4m3", [Ok((DtypeKey, VStr("int8")))]) ==
      Ok(QuantizationConfig("int8", None, Some(Finite(448.0)), 50, 1, 32))
  {
    OutcomeOfOne("fp8_e4m3", DtypeKey, VStr("int8"));
  }

  /**
   * Once every field has parsed, the outcome fails exactly when a qscheme is
   * set and quant_max is not, and then with the missing-quant_max error. A
   * dtype without a table entry and no quant_max field leaves quant_max unset.
   */
  lemma SchemeNeedsQuantMax(first: string, rs: seq<Parsed>)
    requires forall i :: 0 <= i < |rs| ==> rs[i].Ok?
    ensures Outcome(first, rs).Err? <==>
      Setting(first, rs, QSchemeKey).VScheme? && Setting(first, rs, QuantMaxKey).VNone?
    ensures Outcome(first, rs).Err? ==>
      Outcome(first, rs).error == MissingQuantMax(Setting(first, rs, QSchemeKey).q)
    ensures DtypeQuantMax(first).None? && LastSetting(rs, QuantMaxKey).None? ==>
      Setting(first, rs, QuantMaxKey) == VNone
  {
    var p := map k | k in AllParams :: Setting(first, rs, k);
    assert FirstFailure(rs).None?;
    assert Outcome(first, rs) == Finish(p);
    assert p[QSchemeKey] == Setting(first, rs, QSchemeKey);
    assert p[QuantMaxKey] == Setting(first, rs, QuantMaxKey);
  }

  /** A single well-formed field overrides just its own parameter's default. */
  lemma OutcomeOfOne(first: string, k: Param, v: Value)
    ensures Outcome(first, [Ok((k, v))]) ==
      Finish(map k' | k' in AllParams :: if k' == k then v else Defaults(first)[k'])
  {
    var rs: seq<Parsed> := [Ok((k, v))];
    assert rs[..0] == [];
    forall k' ensures Setting(first, rs, k') == if k' == k then v else Defaults(first)[k'] {
      assert LastSetting(rs, k') == if k' == k then Some(v) else LastSetting([], k');
    }
    assert (map k' | k' in AllParams :: Setting(first, rs, k')) ==
      (map k' | k' in AllParams :: if k' == k then v else Defaults(first)[k']);
  }

  // ---------------------------------------------------------------------------
  // QSpecs

  datatype SpecValue = SNone | SStr(s: string) | SBool(b: bool) | SOther(code: int)

  /** The QSpecs defaults, in the order the constructor visits them. */
  const SpecDefaults: seq<(string, SpecValue)> := [
    ("activation", SNone),
    ("weight", SNone),
    ("error", SNone),
    ("quantize_forward", SStr("gemm")),
    ("quantize_backward", SStr("gemm")),
    ("op_fusion", SNone),
    ("posit_exp", SBool(false)),
    ("posit_exp_shifted", SBool(false)),
    ("posit_reciprocal", SBool(false)),
    ("record_histogram", SBool(false)),
    ("use_bfloat16", SBool(false))
  ]

  /** The default the first entry of `ds` naming `k` gives, if any. */
  function DefaultIn(ds: seq<(string, SpecValue)>, k: string): Option<SpecValue>
  {
    if ds == [] then None
    else if ds[0].0 == k then Some(ds[0].1)
    else DefaultIn(ds[1..], k)
  }

  lemma {:induction false} DefaultInSnoc(ds: seq<(string, SpecValue)>, e: (string, SpecValue), k: string)
    ensures DefaultIn(ds + [e], k) ==
      if DefaultIn(ds, k).Some? then DefaultIn(ds, k) else if e.0 == k then Some(e.1) else None
  {
    if ds == [] {
      assert ds + [e] == [e];
    } else {
      assert (ds + [e])[1..] == ds[1..] + [e];
      DefaultInSnoc(ds[1..], e, k);
    }
  }

  class QSpecs {
    var data: map<string, SpecValue>

    /** Start from the supplied entries and add each default whose key is absent. */
    constructor (supplied: map<string, SpecValue>)
      ensures forall k :: k in supplied ==> k in data && data[k] == supplied[k]
      ensures forall k :: k !in supplied && DefaultIn(SpecDefaults, k).Some? ==>
        k in data && data[k] == DefaultIn(SpecDefaults, k).value
      ensures forall k :: k in data ==> k in supplied || DefaultIn(SpecDefaults, k).Some?
    {
      var defaults := SpecDefaults;
      var d := supplied;
      var j := 0;
      while j < |defaults|
        invariant 0 <= j <= |defaults|
        invariant forall k :: k in supplied ==> k in d && d[k] == supplied[k]
        invariant forall k :: k !in supplied && DefaultIn(defaults[..j], k).Some? ==>
          k in d && d[k] == DefaultIn(defaults[..j], k).value
        invariant forall k :: k in d ==> k in supplied || DefaultIn(defaults[..j], k).Some?
      {
        var (k, v) := defaults[j];
        assert defaults[..j + 1] == defaults[..j] + [(k, v)];
        forall k' {
          DefaultInSnoc(defaults[..j], (k, v), k');
        }
        if k !in d {
          d := d[k := v];
        }
        j := j + 1;
      }
      assert defaults[..j] == defaults;
      data := d;
    }
  }
}

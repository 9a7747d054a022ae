/**
 * The eager-mode hook rules: which modules of a model tree receive
 * quantizer hooks, how a configuration attribute is pushed down the tree,
 * how modules are swapped for their quantized counterparts, and what the
 * observer pre-hook does with the inputs it intercepts.
 *
 * A module is a value: its class (`kind`), whether it is a fused module,
 * its plain attributes, the hooks registered on it, the ModuleDicts of
 * quantizers those hooks use, and its named children. The recursive walks
 * of the source mutate the tree in place; here each walk returns the
 * updated tree. Class membership (`isinstance`) is membership of the
 * class name in a list of class names.
 */
module Quantize {
  import opened Wrappers
  import opened Strings

  type Kind = string

  /** The category table: category name to the module classes it covers. */
  type Table = map<string, seq<Kind>>

  // ---------------------------------------------------------------------------
  // _parse_quantized_ops

  datatype ParseError = InvalidOps(ops: set<string>)

  /** The distinct lower-cased names of a comma-separated op list. */
  function OpNames(s: string): set<string>
  {
    set p | p in Split(s, ',') :: Lower(p)
  }

  /**
   * The classes of every category named in `ops`; no list gives no class,
   * and a name that is not a category is an error listing every such name.
   */
  function ParseQuantizedOps(ops: Option<string>, table: Table): (r: Result<set<Kind>, ParseError>)
    ensures ops.None? ==> r == Ok({})
    ensures ops.Some? ==>
      (r.Err? <==> exists p :: p in Split(ops.value, ',') && Lower(p) !in table)
    ensures r.Err? ==> ops.Some?
    ensures r.Err? && ops.Some? ==>
      forall op :: op in r.error.ops <==> op in OpNames(ops.value) && op !in table
    ensures r.Ok? && ops.Some? ==>
      forall k :: k in r.value <==>
        exists p :: p in Split(ops.value, ',') && Lower(p) in table && k in table[Lower(p)]
  {
    match ops
    case None => Ok({})
    case Some(s) =>
      var names := OpNames(s);
      var invalid := set op | op in names && op !in table;
      if invalid != {} then Err(InvalidOps(invalid))
      else
        assert forall p | p in Split(s, ',') :: Lower(p) in names && (Lower(p) in table || Lower(p) in invalid);
        Ok(set op, k | op in names && op in table && k in table[op] :: k)
  }

  /** The op list is read case-insensitively. */
  lemma ParseIgnoresCase(s: string, table: Table)
    ensures ParseQuantizedOps(Some(Lower(s)), table) == ParseQuantizedOps(Some(s), table)
  {
    OpNamesLower(s);
  }

  lemma OpNamesLower(s: string)
    ensures OpNames(Lower(s)) == OpNames(s)
  {
    SplitCommaLower(s);
    var ps, qs := Split(s, ','), Split(Lower(s), ',');
    forall x | x in OpNames(Lower(s)) ensures x in OpNames(s) {
      var q :| q in qs && Lower(q) == x;
      var i :| 0 <= i < |qs| && qs[i] == q;
      LowerIdempotent(ps[i]);
      assert Lower(ps[i]) == x;
    }
    forall x | x in OpNames(s) ensures x in OpNames(Lower(s)) {
      var p :| p in ps && Lower(p) == x;
      var i :| 0 <= i < |ps| && ps[i] == p;
      LowerIdempotent(ps[i]);
      assert Lower(qs[i]) == x;
    }
  }

  /** qs is ps with every part lower-cased. */
  predicate LowerEach(ps: seq<string>, qs: seq<string>)
  {
    |qs| == |ps| && forall i :: 0 <= i < |ps| ==> qs[i] == Lower(ps[i])
  }

  /** Lower-casing commutes with splitting on ','. */
  lemma {:induction false} SplitCommaLower(s: string)
    ensures LowerEach(Split(s, ','), Split(Lower(s), ','))
  {
    if s != [] {
      var l := Lower(s);
      SplitCommaLower(s[1..]);
      assert l[0] == LowerChar(s[0]);
      assert l[1..] == Lower(s[1..]);
      var rest, lrest := Split(s[1..], ','), Split(l[1..], ',');
      if s[0] == ',' {
        SplitLowerSep(s, l, rest, lrest);
      } else {
        SplitLowerJoin(s, l, rest, lrest);
      }
    }
  }

  lemma SplitLowerSep(s: string, l: string, rest: seq<string>, lrest: seq<string>)
    requires s != [] && s[0] == ',' && l == Lower(s)
    requires rest == Split(s[1..], ',') && lrest == Split(l[1..], ',') && LowerEach(rest, lrest)
    ensures LowerEach(Split(s, ','), Split(l, ','))
  {
    assert l[0] == ',';
    assert Split(s, ',') == [""] + rest;
    assert Split(l, ',') == [""] + lrest;
    assert Lower("") == "";
  }

  lemma SplitLowerJoin(s: string, l: string, rest: seq<string>, lrest: seq<string>)
    requires s != [] && s[0] != ',' && l == Lower(s)
    requires rest == Split(s[1..], ',') && lrest == Split(l[1..], ',') && LowerEach(rest, lrest)
    ensures LowerEach(Split(s, ','), Split(l, ','))
  {
    assert l[0] == LowerChar(s[0]) != ',';
    var head, lhead := [s[0]] + rest[0], [l[0]] + lrest[0];
    assert Split(s, ',') == [head] + rest[1..];
    assert Split(l, ',') == [lhead] + lrest[1..];
    LowerCons(s[0], rest[0]);
    LowerEachCons(head, rest[1..], lhead, lrest[1..]);
  }

  lemma LowerCons(c: char, t: string)
    ensures Lower([c] + t) == [LowerChar(c)] + Lower(t)
  {
  }

  lemma LowerEachCons(p: string, ps: seq<string>, q: string, qs: seq<string>)
    requires LowerEach(ps, qs) && q == Lower(p)
    ensures LowerEach([p] + ps, [q] + qs)
  {
  }

  /** Joining two op lists with ',' parses to the union of their classes, and fails when either fails. */
  lemma ParseUnion(a: string, b: string, table: Table)
    ensures var ab := ParseQuantizedOps(Some(a + "," + b), table);
      var ra, rb := ParseQuantizedOps(Some(a), table), ParseQuantizedOps(Some(b), table);
      (ab.Ok? <==> ra.Ok? && rb.Ok?) &&
      (ab.Ok? ==> ab.value == ra.value + rb.value)
  {
    SplitConcat(a, ',', b);
    assert a + "," + b == a + [','] + b;
    var pa, pb := Split(a, ','), Split(b, ',');
    assert OpNames(a + "," + b) == OpNames(a) + OpNames(b) by {
      assert Split(a + "," + b, ',') == pa + pb;
      forall x | x in OpNames(a) ensures x in OpNames(a + "," + b) {
        var p :| p in pa && Lower(p) == x;
        assert p in pa + pb;
      }
      forall x | x in OpNames(b) ensures x in OpNames(a + "," + b) {
        var p :| p in pb && Lower(p) == x;
        assert p in pa + pb;
      }
    }
  }

  /** A repeated op name adds nothing. */
  lemma ParseDeduplicates(s: string, table: Table)
    ensures ParseQuantizedOps(Some(s + "," + s), table) == ParseQuantizedOps(Some(s), table)
  {
    SplitConcat(s, ',', s);
    assert s + "," + s == s + [','] + s;
    var ps := Split(s, ',');
    assert Split(s + "," + s, ',') == ps + ps;
    assert OpNames(s + "," + s) == OpNames(s) by {
      forall x | x in OpNames(s + "," + s) ensures x in OpNames(s) {
        var p :| p in ps + ps && Lower(p) == x;
        assert p in ps;
      }
      forall x | x in OpNames(s) ensures x in OpNames(s + "," + s) {
        var p :| p in ps && Lower(p) == x;
        assert p in ps + ps;
      }
    }
  }

  // ---------------------------------------------------------------------------
  // Modules

  /** The three hooks prepare can attach, named by the ModuleDict attribute they use. */
  datatype Hook = ActivationPre | ErrorPre | ErrorPost

  function HookName(h: Hook): string
  {
    match h
    case ActivationPre => "activation_pre_process"
    case ErrorPre => "error_pre_process"
    case ErrorPost => "error_post_process"
  }

  /** The torch hook list a hook is registered in. */
  datatype Registry = ForwardPre | FullBackwardPre | FullBackward

  function RegistryOf(h: Hook): Registry
  {
    match h
    case ActivationPre => ForwardPre
    case ErrorPre => FullBackwardPre
    case ErrorPost => FullBackward
  }

  /** The qconfig attribute naming the quantizer class a hook creates: its name up to the first '_'. */
  function ObserverRole(h: Hook): string
  {
    Split(HookName(h), '_')[0]
  }

  /** Activation hooks create qconfig.activation quantizers. */
  lemma ActivationRole()
    ensures ObserverRole(ActivationPre) == "activation"
  {
    var head, tail := "activation", "pre_process";
    assert '_' !in head;
    assert HookName(ActivationPre) == head + ['_'] + tail;
    SplitPrefix(head, '_', tail);
  }

  /** The error pre-hook creates qconfig.error quantizers. */
  lemma ErrorPreRole()
    ensures ObserverRole(ErrorPre) == "error"
  {
    var head, tail := "error", "pre_process";
    assert '_' !in head;
    assert HookName(ErrorPre) == head + ['_'] + tail;
    SplitPrefix(head, '_', tail);
  }

  /** So does the error post-hook. */
  lemma ErrorPostRole()
    ensures ObserverRole(ErrorPost) == "error"
  {
    var head, tail := "error", "post_process";
    assert '_' !in head;
    assert HookName(ErrorPost) == head + ['_'] + tail;
    SplitPrefix(head, '_', tail);
  }

  /** A plain attribute value: None or some object. */
  datatype AttrValue = NoneValue | Object(id: nat)

  /** A quantizer created by an observer hook: its qconfig role and the layer name it was given. */
  datatype Quantizer = Quantizer(role: string, layer: string)

  datatype Module = Module(
    kind: Kind,
    fused: bool,
    attrs: map<string, AttrValue>,
    hooks: seq<Hook>,
    processes: map<Hook, map<string, Quantizer>>,
    children: seq<(string, Module)>)

  /** A module without its children. */
  function Shell(m: Module): Module
  {
    m.(children := [])
  }

  /** The names of a module's children, in order. */
  function Labels(m: Module): seq<string>
  {
    seq(|m.children|, i requires 0 <= i < |m.children| => m.children[i].0)
  }

  /** `path` leads, child index by child index, from m to a descendant. */
  predicate Has(m: Module, path: seq<nat>)
    decreases |path|
  {
    path == [] || (path[0] < |m.children| && Has(m.children[path[0]].1, path[1..]))
  }

  function Get(m: Module, path: seq<nat>): Module
    requires Has(m, path)
    decreases |path|
  {
    if path == [] then m else Get(m.children[path[0]].1, path[1..])
  }

  /** The dotted name add_observer gives a child: the bare name at the root. */
  function ChildName(prefix: string, name: string): string
  {
    if prefix != "" then prefix + "." + name else name
  }

  /** The dotted name of the module at `path` when m is named `prefix`. */
  function QualName(m: Module, prefix: string, path: seq<nat>): string
    requires Has(m, path)
    decreases |path|
  {
    if path == [] then prefix
    else QualName(m.children[path[0]].1, ChildName(prefix, m.children[path[0]].0), path[1..])
  }

  // ---------------------------------------------------------------------------
  // propagate_config

  /** setattr(name, v) on m and on every descendant. */
  function PropagateConfig(m: Module, name: string, v: AttrValue): Module
  {
    m.(attrs := m.attrs[name := v],
       children := seq(|m.children|, i requires 0 <= i < |m.children| =>
         (m.children[i].0, PropagateConfig(m.children[i].1, name, v))))
  }

  /** Every module of the tree gets the attribute; nothing else changes, not even the tree's shape. */
  lemma {:induction false} PropagateConfigAt(m: Module, name: string, v: AttrValue, path: seq<nat>)
    ensures Has(PropagateConfig(m, name, v), path) <==> Has(m, path)
    ensures Has(m, path) ==>
      var before, after := Get(m, path), Get(PropagateConfig(m, name, v), path);
      Shell(after) == Shell(before).(attrs := before.attrs[name := v]) &&
      Labels(after) == Labels(before)
    decreases |path|
  {
    var r := PropagateConfig(m, name, v);
    if path != [] && path[0] < |m.children| {
      PropagateConfigAt(m.children[path[0]].1, name, v, path[1..]);
    }
    if path == [] {
      assert Labels(r) == Labels(m);
    }
  }

  /** Pushing the same attribute twice is the same as pushing it once. */
  lemma {:induction false} PropagateConfigIdempotent(m: Module, name: string, v: AttrValue)
    ensures PropagateConfig(PropagateConfig(m, name, v), name, v) == PropagateConfig(m, name, v)
    decreases m
  {
    var once := PropagateConfig(m, name, v);
    forall i | 0 <= i < |m.children|
      ensures PropagateConfig(once.children[i].1, name, v) == once.children[i].1
    {
      PropagateConfigIdempotent(m.children[i].1, name, v);
    }
    assert PropagateConfig(once, name, v).children == once.children;
  }

  // ---------------------------------------------------------------------------
  // prepare: insert_module_process and add_observer

  const RESIDUAL_LAYERS: seq<string> := [
    "query", "key", "value", "intermediate",
    "bottleneck.input", "bottleneck.attention",
    "q_lin", "k_lin", "v_lin", "lin1",
    "q_proj", "k_proj", "v_proj"]

  /** What prepare decides hooks from, once both op lists have been parsed. */
  datatype Prep = Prep(
    fwd: set<Kind>,
    bwd: set<Kind>,
    quantizeBwd: Option<string>,
    opFusion: Option<seq<string>>,
    residual: seq<Kind>,
    gemm: seq<Kind>)

  /** A module whose name contains an op_fusion entry gets no hooks. */
  predicate Excluded(opFusion: Option<seq<string>>, name: string)
  {
    opFusion.Some? && exists layer :: layer in opFusion.value && Contains(name, layer)
  }

  predicate NamesResidualLayer(name: string)
  {
    exists layer :: layer in RESIDUAL_LAYERS && Contains(name, layer)
  }

  /**
   * `a or b and c` in Python is `a or (b and c)`: a residual class counts
   * whatever its name, a gemm class only under a residual layer name.
   */
  predicate IsResidual(kind: Kind, name: string, p: Prep)
  {
    kind in p.residual || (NamesResidualLayer(name) && kind in p.gemm)
  }

  /** The error post-hook needs "residual" in the raw backward op list, as a substring. */
  predicate WantsErrorPost(kind: Kind, name: string, p: Prep)
  {
    p.quantizeBwd.Some? && Contains(p.quantizeBwd.value, "residual") && IsResidual(kind, name, p)
  }

  /** The hooks insert_module_process attaches to a module, in attachment order. */
  function HooksFor(kind: Kind, name: string, p: Prep): (hs: seq<Hook>)
    ensures Excluded(p.opFusion, name) ==> hs == []
    ensures !Excluded(p.opFusion, name) ==>
      (ActivationPre in hs <==> kind in p.fwd) &&
      (ErrorPre in hs <==> kind in p.bwd) &&
      (ErrorPost in hs <==> WantsErrorPost(kind, name, p))
    ensures forall i, j :: 0 <= i < j < |hs| ==> RegistryOf(hs[i]) != RegistryOf(hs[j])
  {
    if Excluded(p.opFusion, name) then []
    else
      (if kind in p.fwd then [ActivationPre] else []) +
      (if kind in p.bwd then [ErrorPre] else []) +
      (if WantsErrorPost(kind, name, p) then [ErrorPost] else [])
  }

  /** add_module(hook_name, ModuleDict()) and the hook registration. */
  function Register(m: Module, h: Hook): Module
  {
    m.(hooks := m.hooks + [h], processes := m.processes[h := map[]])
  }

  function RegisterAll(m: Module, hs: seq<Hook>): (r: Module)
    ensures r.kind == m.kind && r.fused == m.fused && r.attrs == m.attrs && r.children == m.children
    ensures r.hooks == m.hooks + hs
    ensures forall h :: h in hs ==> h in r.processes && r.processes[h] == map[]
    ensures forall h :: h !in hs ==> (h in r.processes <==> h in m.processes)
    ensures forall h :: h !in hs && h in m.processes ==> r.processes[h] == m.processes[h]
    decreases |hs|
  {
    if hs == [] then m
    else
      var r := RegisterAll(Register(m, hs[0]), hs[1..]);
      assert m.hooks + hs == m.hooks + [hs[0]] + hs[1..];
      r
  }

  function InsertModuleProcess(m: Module, name: string, p: Prep): Module
  {
    RegisterAll(m, HooksFor(m.kind, name, p))
  }

  /**
   * add_observer: every child is handled first, in order (a fused child is
   * given hooks without looking inside it, any other child is walked), then
   * the module itself.
   */
  function AddObserver(m: Module, prefix: string, p: Prep): Module
  {
    var kids := seq(|m.children|, i requires 0 <= i < |m.children| =>
      var name, c := m.children[i].0, m.children[i].1;
      (name,
       if c.fused then InsertModuleProcess(c, ChildName(prefix, name), p)
       else AddObserver(c, ChildName(prefix, name), p)));
    InsertModuleProcess(m.(children := kids), prefix, p)
  }

  /** The walk reaches a module unless a fused module strictly between it and the root stops it. */
  predicate Reached(m: Module, path: seq<nat>)
    requires Has(m, path)
    decreases |path|
  {
    |path| <= 1 || (!m.children[path[0]].1.fused && Reached(m.children[path[0]].1, path[1..]))
  }

  lemma ShellInsert(m: Module, name: string, p: Prep)
    ensures Shell(InsertModuleProcess(m, name, p)) == InsertModuleProcess(Shell(m), name, p)
  {
  }

  /** The i-th child after add_observer: hooked if fused, walked otherwise, under its own name. */
  lemma AddObserverChild(m: Module, prefix: string, p: Prep, i: nat)
    requires i < |m.children|
    ensures var r, name, c := AddObserver(m, prefix, p), m.children[i].0, m.children[i].1;
      |r.children| == |m.children| && r.children[i].0 == name &&
      r.children[i].1 == if c.fused then InsertModuleProcess(c, ChildName(prefix, name), p)
                         else AddObserver(c, ChildName(prefix, name), p)
  {
  }

  /** add_observer keeps the child names and gives the module itself its hooks. */
  lemma AddObserverRoot(m: Module, prefix: string, p: Prep)
    ensures var r := AddObserver(m, prefix, p);
      Labels(r) == Labels(m) && Shell(r) == InsertModuleProcess(Shell(m), prefix, p)
  {
    AddObserverLabels(m, prefix, p);
    AddObserverShell(m, prefix, p);
  }

  lemma AddObserverLabels(m: Module, prefix: string, p: Prep)
    ensures Labels(AddObserver(m, prefix, p)) == Labels(m)
  {
    var r := AddObserver(m, prefix, p);
    forall i | 0 <= i < |m.children|
      ensures r.children[i].0 == m.children[i].0
    {
      AddObserverChild(m, prefix, p, i);
    }
  }

  lemma AddObserverShell(m: Module, prefix: string, p: Prep)
    ensures Shell(AddObserver(m, prefix, p)) == InsertModuleProcess(Shell(m), prefix, p)
  {
    var r := AddObserver(m, prefix, p);
    var walked := m.(children := r.children);
    assert r == InsertModuleProcess(walked, prefix, p) by {
      assert r.children == RegisterAll(walked, HooksFor(m.kind, prefix, p)).children;
    }
    ShellInsert(walked, prefix, p);
    assert Shell(walked) == Shell(m);
  }

  /** Below a fused child nothing changes; the fused child itself only gains its hooks. */
  lemma FusedChildAt(c: Module, n: string, p: Prep, rest: seq<nat>)
    ensures Has(InsertModuleProcess(c, n, p), rest) <==> Has(c, rest)
    ensures Has(c, rest) ==>
      var before, after := Get(c, rest), Get(InsertModuleProcess(c, n, p), rest);
      Labels(after) == Labels(before) &&
      Shell(after) == if rest == [] then InsertModuleProcess(Shell(before), n, p) else Shell(before)
  {
    if rest != [] {
      GetSameChildren(c, InsertModuleProcess(c, n, p), rest);
    } else {
      ShellInsert(c, n, p);
    }
  }

  /**
   * After add_observer the tree has the same shape, every module the walk
   * reaches has exactly the hooks HooksFor gives for its dotted name added,
   * and the insides of fused modules are untouched.
   */
  lemma {:induction false} AddObserverAt(m: Module, prefix: string, p: Prep, path: seq<nat>)
    ensures Has(AddObserver(m, prefix, p), path) <==> Has(m, path)
    ensures Has(m, path) ==>
      var before, after := Get(m, path), Get(AddObserver(m, prefix, p), path);
      Labels(after) == Labels(before) &&
      Shell(after) == if Reached(m, path) then InsertModuleProcess(Shell(before), QualName(m, prefix, path), p)
                      else Shell(before)
    decreases |path|
  {
    if path == [] {
      AddObserverRoot(m, prefix, p);
    } else if path[0] < |m.children| {
      AddObserverChild(m, prefix, p, path[0]);
      var name, c := m.children[path[0]].0, m.children[path[0]].1;
      var n := ChildName(prefix, name);
      if c.fused {
        FusedChildAt(c, n, p, path[1..]);
      } else {
        AddObserverAt(c, n, p, path[1..]);
      }
    } else {
      AddObserverRoot(m, prefix, p);
    }
  }

  /** Two modules with the same children have the same strict descendants. */
  lemma GetSameChildren(a: Module, b: Module, path: seq<nat>)
    requires a.children == b.children && path != []
    ensures Has(a, path) <==> Has(b, path)
    ensures Has(a, path) ==> Get(a, path) == Get(b, path)
  {
  }

  /** The dotted names insert_module_process is called with, in call order. */
  function VisitOrder(m: Module, prefix: string): (names: seq<string>)
    ensures |names| >= 1 && names[|names| - 1] == prefix
    decreases m, |m.children| + 1
  {
    ChildVisits(m, prefix, 0) + [prefix]
  }

  /** The visits for the children of m from the i-th on. */
  function ChildVisits(m: Module, prefix: string, i: nat): seq<string>
    requires i <= |m.children|
    decreases m, |m.children| - i
  {
    if i == |m.children| then []
    else
      var n := ChildName(prefix, m.children[i].0);
      var c := m.children[i].1;
      (if c.fused then [n] else VisitOrder(c, n)) + ChildVisits(m, prefix, i + 1)
  }

  /** Every module the walk reaches is visited under its dotted name. */
  lemma {:induction false} VisitOrderCovers(m: Module, prefix: string, path: seq<nat>)
    requires Has(m, path) && Reached(m, path)
    ensures QualName(m, prefix, path) in VisitOrder(m, prefix)
    decreases |path|
  {
    if path != [] {
      var i := path[0];
      var name, c := m.children[i].0, m.children[i].1;
      var n := ChildName(prefix, name);
      var block := if c.fused then [n] else VisitOrder(c, n);
      if !c.fused && |path| > 1 {
        VisitOrderCovers(c, n, path[1..]);
      }
      assert QualName(m, prefix, path) in block;
      ChildVisitsContains(m, prefix, 0, i);
    }
  }

  lemma {:induction false} ChildVisitsContains(m: Module, prefix: string, j: nat, i: nat)
    requires j <= i < |m.children|
    ensures var n := ChildName(prefix, m.children[i].0);
      var c := m.children[i].1;
      forall x :: x in (if c.fused then [n] else VisitOrder(c, n)) ==> x in ChildVisits(m, prefix, j)
    decreases i - j
  {
    var rest := ChildVisits(m, prefix, j + 1);
    var n := ChildName(prefix, m.children[j].0);
    var c := m.children[j].1;
    var head := if c.fused then [n] else VisitOrder(c, n);
    assert ChildVisits(m, prefix, j) == head + rest;
    if j < i {
      ChildVisitsContains(m, prefix, j + 1, i);
      InSuffix(head, rest);
    } else {
      InPrefix(head, rest);
    }
  }

  lemma InSuffix(a: seq<string>, b: seq<string>)
    ensures forall x :: x in b ==> x in a + b
  {
  }

  lemma InPrefix(a: seq<string>, b: seq<string>)
    ensures forall x :: x in a ==> x in a + b
  {
  }

  /** The root is visited last: after every module below it. */
  lemma RootVisitedLast(m: Module, prefix: string)
    ensures var v := VisitOrder(m, prefix); v[|v| - 1] == prefix && v[..|v| - 1] == ChildVisits(m, prefix, 0)
  {
  }

  /** The category table must list the residual and gemm classes. */
  predicate HasCategories(table: Table)
  {
    "residual" in table && "gemm" in table
  }

  /**
   * prepare: both op lists are parsed first (the forward one's error wins),
   * then the whole tree is walked from the root, named "".
   */
  function Prepare(model: Module, quantizeFwd: Option<string>, quantizeBwd: Option<string>,
                   opFusion: Option<seq<string>>, table: Table): (r: Result<Module, ParseError>)
    requires HasCategories(table)
    ensures ParseQuantizedOps(quantizeFwd, table).Err? ==> r == Err(ParseQuantizedOps(quantizeFwd, table).error)
    ensures ParseQuantizedOps(quantizeFwd, table).Ok? && ParseQuantizedOps(quantizeBwd, table).Err? ==>
      r == Err(ParseQuantizedOps(quantizeBwd, table).error)
    ensures r.Ok? <==> ParseQuantizedOps(quantizeFwd, table).Ok? && ParseQuantizedOps(quantizeBwd, table).Ok?
  {
    match ParseQuantizedOps(quantizeFwd, table)
    case Err(e) => Err(e)
    case Ok(fwd) =>
      match ParseQuantizedOps(quantizeBwd, table)
      case Err(e) => Err(e)
      case Ok(bwd) =>
        Ok(AddObserver(model, "", Prep(fwd, bwd, quantizeBwd, opFusion, table["residual"], table["gemm"])))
  }

  /** With no forward and no backward op list nothing is attached anywhere. */
  lemma PrepareWithoutOps(model: Module, opFusion: Option<seq<string>>, table: Table)
    requires HasCategories(table)
    ensures Prepare(model, None, None, opFusion, table) == Ok(model)
  {
    AddObserverNoHooks(model, "", Prep({}, {}, None, opFusion, table["residual"], table["gemm"]));
  }

  lemma {:induction false} AddObserverNoHooks(m: Module, prefix: string, p: Prep)
    requires p.fwd == {} && p.bwd == {} && p.quantizeBwd == None
    ensures AddObserver(m, prefix, p) == m
    decreases m
  {
    var kids := seq(|m.children|, i requires 0 <= i < |m.children| =>
      var name, c := m.children[i].0, m.children[i].1;
      (name,
       if c.fused then InsertModuleProcess(c, ChildName(prefix, name), p)
       else AddObserver(c, ChildName(prefix, name), p)));
    forall i | 0 <= i < |m.children| ensures kids[i] == m.children[i] {
      var c := m.children[i].1;
      if !c.fused {
        AddObserverNoHooks(c, ChildName(prefix, m.children[i].0), p);
      }
    }
    assert kids == m.children;
  }

  /**
   * The post-hook test is a case-sensitive substring test on the raw list:
   * "RESIDUAL" selects the residual classes for the backward pre-hook but
   * never attaches the error post-hook.
   */
  lemma UpperCaseResidualSkipsPostHook(kind: Kind, name: string, p: Prep)
    requires p.quantizeBwd == Some("RESIDUAL")
    ensures !WantsErrorPost(kind, name, p)
    ensures OpNames("RESIDUAL") == {"residual"}
  {
    UpperCaseLacksResidual();
    UpperCaseNamesResidual();
  }

  lemma UpperCaseLacksResidual()
    ensures !Contains("RESIDUAL", "residual")
  {
    var s, sub := "RESIDUAL", "residual";
    ContainsAt(s, sub);
    forall i | 0 <= i <= |s| - |sub| ensures !OccursAt(s, sub, i) {
      assert s[i..i + |sub|][0] == 'R';
    }
  }

  lemma UpperCaseNamesResidual()
    ensures OpNames("RESIDUAL") == {"residual"}
  {
    var s := "RESIDUAL";
    assert ',' !in s;
    SplitNoSep(s, ',');
    LowerResidual();
  }

  lemma LowerResidual()
    ensures Lower("RESIDUAL") == "residual"
  {
    var s, t := "RESIDUAL", "residual";
    forall i | 0 <= i < |s| ensures Lower(s)[i] == t[i] {
      assert Lower(s)[i] == LowerChar(s[i]);
    }
  }

  /** A residual class is residual under any name; a gemm class needs a residual layer name. */
  lemma ResidualPrecedence(kind: Kind, name: string, p: Prep)
    ensures kind in p.residual ==> IsResidual(kind, name, p)
    ensures kind !in p.residual && !NamesResidualLayer(name) ==> !IsResidual(kind, name, p)
    ensures kind !in p.residual && NamesResidualLayer(name) ==> (IsResidual(kind, name, p) <==> kind in p.gemm)
  {
  }

  // ---------------------------------------------------------------------------
  // swap_module and _convert

  datatype Swap = ByCustom | ByMapping | NotSwapped

  predicate HasQConfig(m: Module)
  {
    "qconfig" in m.attrs && m.attrs["qconfig"] != NoneValue
  }

  /** The custom mapping comes first; the default mapping needs a non-None qconfig. */
  function SwapOf(m: Module, mapping: map<Kind, Kind>, custom: map<Kind, Kind>): Swap
  {
    if m.kind in custom then ByCustom
    else if HasQConfig(m) && m.kind in mapping then ByMapping
    else NotSwapped
  }

  /** The hooks of `hs` that torch keeps in registry `g`, in order. */
  function InRegistry(hs: seq<Hook>, g: Registry): (r: seq<Hook>)
    ensures forall h :: h in r <==> h in hs && RegistryOf(h) == g
  {
    if hs == [] then []
    else (if RegistryOf(hs[0]) == g then [hs[0]] else []) + InRegistry(hs[1..], g)
  }

  /** The old module's forward pre-hooks, then its backward pre-hooks, then its backward hooks, registered on the new one. */
  function Rehook(n: Module, m: Module): Module
  {
    n.(hooks := n.hooks + InRegistry(m.hooks, ForwardPre) + InRegistry(m.hooks, FullBackwardPre)
                + InRegistry(m.hooks, FullBackward))
  }

  /**
   * swap_module: `build(target, m)` stands for target.from_observed(m) or
   * target.from_float(m).
   */
  function SwapModule(m: Module, mapping: map<Kind, Kind>, custom: map<Kind, Kind>,
                      build: (Kind, Module) -> Module): (r: Module)
    ensures SwapOf(m, mapping, custom) == NotSwapped ==> r == m
  {
    match SwapOf(m, mapping, custom)
    case ByCustom => Rehook(build(custom[m.kind], m), m)
    case ByMapping => Rehook(build(mapping[m.kind], m), m)
    case NotSwapped => m
  }

  /** Each torch hook list of a swapped module is the new module's own list followed by the old module's. */
  lemma {:induction false} RehookKeepsHooks(n: Module, m: Module, g: Registry)
    ensures InRegistry(Rehook(n, m).hooks, g) == InRegistry(n.hooks, g) + InRegistry(m.hooks, g)
  {
    var f, b, k := InRegistry(m.hooks, ForwardPre), InRegistry(m.hooks, FullBackwardPre), InRegistry(m.hooks, FullBackward);
    InRegistryAppend(n.hooks + f + b, k, g);
    InRegistryAppend(n.hooks + f, b, g);
    InRegistryAppend(n.hooks, f, g);
    InRegistryOnly(m.hooks, ForwardPre, g);
    InRegistryOnly(m.hooks, FullBackwardPre, g);
    InRegistryOnly(m.hooks, FullBackward, g);
  }

  lemma {:induction false} InRegistryAppend(a: seq<Hook>, b: seq<Hook>, g: Registry)
    ensures InRegistry(a + b, g) == InRegistry(a, g) + InRegistry(b, g)
  {
    if a == [] {
      assert a + b == b;
    } else {
      assert (a + b)[1..] == a[1..] + b;
      InRegistryAppend(a[1..], b, g);
    }
  }

  /** Selecting registry g from a list already selected for registry h keeps it whole when g == h and empties it otherwise. */
  lemma {:induction false} InRegistryOnly(hs: seq<Hook>, h: Registry, g: Registry)
    ensures InRegistry(InRegistry(hs, h), g) == if g == h then InRegistry(hs, h) else []
  {
    if hs != [] {
      InRegistryOnly(hs[1..], h, g);
      InRegistryAppend(if RegistryOf(hs[0]) == h then [hs[0]] else [], InRegistry(hs[1..], h), g);
    }
  }

  /** The custom mapping wins even over a module the default mapping would swap. */
  lemma CustomFirst(m: Module, mapping: map<Kind, Kind>, custom: map<Kind, Kind>, build: (Kind, Module) -> Module)
    requires m.kind in custom
    ensures SwapModule(m, mapping, custom, build) == Rehook(build(custom[m.kind], m), m)
  {
  }

  /** A module with no qconfig, or a None one, is swapped only by the custom mapping. */
  lemma NoQConfigNoDefaultSwap(m: Module, mapping: map<Kind, Kind>, custom: map<Kind, Kind>, build: (Kind, Module) -> Module)
    requires !HasQConfig(m) && m.kind !in custom
    ensures SwapModule(m, mapping, custom, build) == m
  {
  }

  /**
   * _convert: each child is converted first unless it is fused or custom
   * mapped (those are swapped as one unit), then the child is swapped; the
   * module itself keeps its own fields.
   */
  function Convert(m: Module, mapping: map<Kind, Kind>, custom: map<Kind, Kind>,
                   build: (Kind, Module) -> Module): (r: Module)
    ensures Shell(r) == Shell(m) && Labels(r) == Labels(m)
  {
    var r := m.(children := seq(|m.children|, i requires 0 <= i < |m.children| =>
      var c := m.children[i].1;
      var c' := if !c.fused && c.kind !in custom then Convert(c, mapping, custom, build) else c;
      (m.children[i].0, SwapModule(c', mapping, custom, build))));
    assert Labels(r) == Labels(m);
    r
  }

  /**
   * Child i after _convert keeps its name; a fused or custom-mapped child is
   * swapped as it stands (its subtree is not converted), any other child is
   * converted first; the child is then swapped exactly when SwapOf says so,
   * custom mapping first, and otherwise stays as converted.
   */
  lemma ConvertChild(m: Module, mapping: map<Kind, Kind>, custom: map<Kind, Kind>,
                     build: (Kind, Module) -> Module, i: nat)
    requires i < |m.children|
    ensures var c := m.children[i].1;
      var inner := if !c.fused && c.kind !in custom then Convert(c, mapping, custom, build) else c;
      var r := Convert(m, mapping, custom, build).children[i];
      r.0 == m.children[i].0 && Shell(inner) == Shell(c) &&
      ((c.fused || c.kind in custom) ==> inner == c) &&
      (SwapOf(c, mapping, custom) == NotSwapped ==> r.1 == inner) &&
      (SwapOf(c, mapping, custom) == ByCustom ==> r.1 == Rehook(build(custom[c.kind], c), c)) &&
      (SwapOf(c, mapping, custom) == ByMapping ==> r.1 == Rehook(build(mapping[c.kind], inner), inner))
  {
    var c := m.children[i].1;
    var inner := if !c.fused && c.kind !in custom then Convert(c, mapping, custom, build) else c;
    assert SwapOf(inner, mapping, custom) == SwapOf(c, mapping, custom) by {
      assert inner.kind == Shell(inner).kind && inner.attrs == Shell(inner).attrs;
    }
    ConvertChildValue(m, mapping, custom, build, i);
  }

  /** Child i after _convert is the swap of the child, converted unless fused or custom mapped. */
  lemma ConvertChildValue(m: Module, mapping: map<Kind, Kind>, custom: map<Kind, Kind>,
                          build: (Kind, Module) -> Module, i: nat)
    requires i < |m.children|
    ensures var c := m.children[i].1;
      var inner := if !c.fused && c.kind !in custom then Convert(c, mapping, custom, build) else c;
      Convert(m, mapping, custom, build).children[i] == (m.children[i].0, SwapModule(inner, mapping, custom, build))
  {
  }

  /** Nothing below m (as far as _convert descends) would be swapped. */
  predicate Stable(m: Module, mapping: map<Kind, Kind>, custom: map<Kind, Kind>)
  {
    forall i :: 0 <= i < |m.children| ==>
      SwapOf(m.children[i].1, mapping, custom) == NotSwapped &&
      (m.children[i].1.fused || Stable(m.children[i].1, mapping, custom))
  }

  /** Converting a tree in which nothing is swappable changes nothing. */
  lemma {:induction false} ConvertStable(m: Module, mapping: map<Kind, Kind>, custom: map<Kind, Kind>,
                                          build: (Kind, Module) -> Module)
    requires Stable(m, mapping, custom)
    ensures Convert(m, mapping, custom, build) == m
    decreases m
  {
    var r := Convert(m, mapping, custom, build);
    forall i | 0 <= i < |m.children| ensures r.children[i] == m.children[i] {
      var c := m.children[i].1;
      if !c.fused && c.kind !in custom {
        ConvertStable(c, mapping, custom, build);
      }
    }
    assert r.children == m.children;
  }

  /** After qconfig = None is pushed down the tree, only custom-mapped classes can be swapped. */
  lemma {:induction false} NoneConfigStable(m: Module, mapping: map<Kind, Kind>, custom: map<Kind, Kind>)
    requires forall i :: 0 <= i < |m.children| ==> NoCustom(m.children[i].1, custom)
    ensures Stable(PropagateConfig(m, "qconfig", NoneValue), mapping, custom)
    decreases m
  {
    var r := PropagateConfig(m, "qconfig", NoneValue);
    forall i | 0 <= i < |r.children|
      ensures SwapOf(r.children[i].1, mapping, custom) == NotSwapped
      ensures r.children[i].1.fused || Stable(r.children[i].1, mapping, custom)
    {
      NoneConfigStable(m.children[i].1, mapping, custom);
    }
  }

  /** No module of the tree has a custom-mapped class. */
  predicate NoCustom(m: Module, custom: map<Kind, Kind>)
  {
    m.kind !in custom && forall i :: 0 <= i < |m.children| ==> NoCustom(m.children[i].1, custom)
  }

  /** convert after propagate_config(model, 'qconfig', None) leaves a tree without custom classes as it is. */
  lemma ConvertAfterNoneConfig(m: Module, mapping: map<Kind, Kind>, custom: map<Kind, Kind>,
                               build: (Kind, Module) -> Module)
    requires NoCustom(m, custom)
    ensures var n := PropagateConfig(m, "qconfig", NoneValue);
      Convert(n, mapping, custom, build) == n
  {
    NoneConfigStable(m, mapping, custom);
    ConvertStable(PropagateConfig(m, "qconfig", NoneValue), mapping, custom, build);
  }

  // ---------------------------------------------------------------------------
  // _observer_pre_hook

  /** An intercepted input: a tensor, or anything else. */
  datatype HookArg<V> = Tensor(v: V) | NonTensor(v: V)

  /** What the hook hands on: a non-tensor unchanged, a tensor through the quantizer stored under `key`. */
  datatype HookOut<V> = Passed(arg: HookArg<V>) | Quantized(key: string, v: V)

  function HookOutAt<V>(a: HookArg<V>, i: nat): HookOut<V>
  {
    match a
    case Tensor(v) => Quantized(NatToString(i), v)
    case NonTensor(_) => Passed(a)
  }

  /** What the hook hands on for the first n inputs, position by position. */
  function HookOuts<V>(inputs: seq<HookArg<V>>, n: nat): (outs: seq<HookOut<V>>)
    requires n <= |inputs|
    ensures |outs| == n
    ensures forall j :: 0 <= j < n ==> outs[j] == HookOutAt(inputs[j], j)
  {
    if n == 0 then [] else HookOuts(inputs, n - 1) + [HookOutAt(inputs[n - 1], n - 1)]
  }

  /** The keys "0", "1", ... of the tensor positions among the first n inputs. */
  function TensorKeys<V>(inputs: seq<HookArg<V>>, n: nat): set<string>
    requires n <= |inputs|
  {
    set i | 0 <= i < n && inputs[i].Tensor? :: NatToString(i)
  }

  /** A ModuleDict after every missing key of `keys` got a fresh quantizer q. */
  function AddMissing(d: map<string, Quantizer>, keys: set<string>, q: Quantizer): (r: map<string, Quantizer>)
    ensures r.Keys == d.Keys + keys
    ensures forall k :: k in d ==> r[k] == d[k]
    ensures forall k :: k in keys && k !in d ==> r[k] == q
  {
    map k | k in d.Keys + keys :: if k in d then d[k] else q
  }

  lemma TensorKeysStep<V>(inputs: seq<HookArg<V>>, i: nat)
    requires i < |inputs|
    ensures inputs[i].Tensor? ==> TensorKeys(inputs, i + 1) == TensorKeys(inputs, i) + {NatToString(i)}
    ensures inputs[i].NonTensor? ==> TensorKeys(inputs, i + 1) == TensorKeys(inputs, i)
  {
  }

  /** Adding one more key to AddMissing fills it only when it is still missing. */
  lemma AddMissingInsert(d: map<string, Quantizer>, keys: set<string>, k: string, q: Quantizer)
    ensures var m := AddMissing(d, keys, q);
      AddMissing(d, keys + {k}, q) == if k in m then m else m[k := q]
  {
  }

  /** Different tensor positions use different quantizers. */
  lemma KeysDistinct<V>(inputs: seq<HookArg<V>>, i: nat, j: nat)
    requires i < |inputs| && j < |inputs| && i != j
    ensures HookOutAt(inputs[i], i).Quantized? && HookOutAt(inputs[j], j).Quantized? ==>
      HookOutAt(inputs[i], i).key != HookOutAt(inputs[j], j).key
  {
    if NatToString(i) == NatToString(j) {
      NatToStringInjective(i, j);
    }
  }

  /** A call whose tensors sit at positions already seen creates no quantizer. */
  lemma CreatedOnce(d: map<string, Quantizer>, first: set<string>, again: set<string>, q: Quantizer, q': Quantizer)
    requires again <= first
    ensures AddMissing(AddMissing(d, first, q), again, q') == AddMissing(d, first, q)
  {
  }

  /** The runtime state of one _observer_pre_hook: the ModuleDict it fills and applies. */
  class ObserverPreHook<V> {
    const hook: Hook
    const layerName: string
    var moduleDict: map<string, Quantizer>

    /** The quantizer created on first use: qconfig's class for the hook's role, given the layer name. */
    function Fresh(): Quantizer
      reads this
    {
      Quantizer(ObserverRole(hook), layerName)
    }

    constructor(hook: Hook, layerName: string)
      ensures this.hook == hook && this.layerName == layerName && moduleDict == map[]
    {
      this.hook := hook;
      this.layerName := layerName;
      moduleDict := map[];
    }

    /**
     * One call: the outputs have the inputs' length, non-tensors pass
     * through, the tensor at position i goes through the quantizer keyed
     * str(i), which is created only if it is missing.
     */
    method Call(inputs: seq<HookArg<V>>) returns (outs: seq<HookOut<V>>)
      modifies this
      ensures |outs| == |inputs|
      ensures forall i :: 0 <= i < |inputs| ==> outs[i] == HookOutAt(inputs[i], i)
      ensures moduleDict == AddMissing(old(moduleDict), TensorKeys(inputs, |inputs|), Fresh())
    {
      outs := [];
      var i := 0;
      while i < |inputs|
        invariant 0 <= i <= |inputs|
        invariant outs == HookOuts(inputs, i)
        invariant moduleDict == AddMissing(old(moduleDict), TensorKeys(inputs, i), Fresh())
      {
        TensorKeysStep(inputs, i);
        if inputs[i].Tensor? {
          var idx := NatToString(i);
          AddMissingInsert(old(moduleDict), TensorKeys(inputs, i), idx, Fresh());
          if idx !in moduleDict {
            moduleDict := moduleDict[idx := Fresh()];
          }
          assert moduleDict == AddMissing(old(moduleDict), TensorKeys(inputs, i) + {idx}, Fresh());
        }
        assert HookOuts(inputs, i + 1) == HookOuts(inputs, i) + [HookOutAt(inputs[i], i)];
        outs := outs + [HookOutAt(inputs[i], i)];
        i := i + 1;
      }
    }

    /** The error post-hook runs the same steps on the gradients of the inputs. */
    method CallBackward(gradInputs: seq<HookArg<V>>, gradOutputs: seq<HookArg<V>>) returns (outs: seq<HookOut<V>>)
      modifies this
      ensures |outs| == |gradInputs|
      ensures forall i :: 0 <= i < |gradInputs| ==> outs[i] == HookOutAt(gradInputs[i], i)
      ensures moduleDict == AddMissing(old(moduleDict), TensorKeys(gradInputs, |gradInputs|), Fresh())
    {
      outs := Call(gradInputs);
    }
  }
}

/**
 * The chain-fusion pass of ShapeProp and the code emission after it.
 *
 * The torch.fx graph is an arena: a map from node ids to nodes and the list
 * of live ids in graph order. A node refers to other nodes through its
 * positional and keyword arguments; its users are the live nodes that refer
 * to it. The operator tables GEMM_OPS_MAPPING, VECTOR_OPS_MAPPING and
 * NOP_MAPPING are given as sets of function names.
 */
module Codegen {
  import opened Wrappers
  import opened Strings
  import AttrNames

  // ---------------------------------------------------------------------------
  // Graph data

  datatype OpKind = PlaceholderOp | GetAttr | CallFunction | CallMethod | CallModule | OutputOp

  /** A call_function target is a function; every other target is a name. */
  datatype Target = Fn(fn: string) | Attr(name: string)

  /**
   * An argument value: a node, a Python list or tuple of values, a string
   * (the marker 'placeholder' among them) or any other constant.
   */
  datatype Arg =
    | NodeArg(id: nat)
    | ListArg(items: seq<Arg>)
    | TupleArg(elems: seq<Arg>)
    | Str(s: string)
    | Other(code: int)

  const Marker: Arg := Str("placeholder")

  /** A node; `kwargs` holds the values of its keyword arguments. */
  datatype Node = Node(op: OpKind, target: Target, args: seq<Arg>, kwargs: seq<Arg>)

  datatype Tables = Tables(gemm: set<string>, vector: set<string>, nop: set<string>)

  predicate InTable(t: Target, table: set<string>)
  {
    t.Fn? && t.fn in table
  }

  // ---------------------------------------------------------------------------
  // _check_arg_computed

  /**
   * A list is computed when all its elements are; a node when it has been
   * visited; anything else (a tuple included, being neither a list nor a
   * node) counts as computed.
   */
  predicate ArgComputed(a: Arg, visited: set<nat>)
  {
    match a
    case ListArg(items) => forall i :: 0 <= i < |items| ==> ArgComputed(items[i], visited)
    case NodeArg(id) => id in visited
    case _ => true
  }

  /** The nodes an argument refers to outside any tuple: the ones _check_arg_computed looks at. */
  ghost predicate ChecksNode(a: Arg, n: nat)
  {
    match a
    case NodeArg(id) => id == n
    case ListArg(items) => exists i :: 0 <= i < |items| && ChecksNode(items[i], n)
    case _ => false
  }

  /** _check_arg_computed holds exactly when every node it looks at has been visited. */
  lemma {:induction false} ArgComputedIff(a: Arg, visited: set<nat>)
    ensures ArgComputed(a, visited) <==> forall n :: ChecksNode(a, n) ==> n in visited
  {
    match a
    case ListArg(items) =>
      forall i | 0 <= i < |items| {
        ArgComputedIff(items[i], visited);
      }
      if !ArgComputed(a, visited) {
        var i :| 0 <= i < |items| && !ArgComputed(items[i], visited);
        var n :| ChecksNode(items[i], n) && n !in visited;
        assert ChecksNode(a, n);
      }
    case NodeArg(id) =>
      assert ChecksNode(a, id);
    case _ =>
  }

  // ---------------------------------------------------------------------------
  // Uses

  /** The argument refers to node n, at any depth. */
  predicate ArgMentions(a: Arg, n: nat)
  {
    match a
    case NodeArg(id) => id == n
    case ListArg(items) => exists i :: 0 <= i < |items| && ArgMentions(items[i], n)
    case TupleArg(elems) => exists i :: 0 <= i < |elems| && ArgMentions(elems[i], n)
    case _ => false
  }

  /** The node uses n through a positional or a keyword argument. */
  predicate Mentions(node: Node, n: nat)
  {
    (exists i :: 0 <= i < |node.args| && ArgMentions(node.args[i], n)) ||
    (exists i :: 0 <= i < |node.kwargs| && ArgMentions(node.kwargs[i], n))
  }

  /** node.users: the live nodes that use n, in graph order. */
  function Users(nodes: map<nat, Node>, order: seq<nat>, n: nat): (us: seq<nat>)
    ensures forall u :: u in us <==> u in order && u in nodes && Mentions(nodes[u], n)
  {
    if order == [] then []
    else
      var rest := Users(nodes, order[1..], n);
      assert forall u :: u in order <==> u == order[0] || u in order[1..];
      if order[0] in nodes && Mentions(nodes[order[0]], n) then [order[0]] + rest else rest
  }

  // ---------------------------------------------------------------------------
  // Growing a chain

  /**
   * The user joins the chain whose tail is `cur`: every positional argument
   * other than a top-level occurrence of the tail is computed, and the user
   * is a NOP op, or the chain started at a GEMM or vector op and the user is
   * a vector op. Keyword arguments are not looked at.
   */
  predicate Joins(user: Node, cur: nat, startsGemmOrVector: bool, visited: set<nat>, tables: Tables)
  {
    (forall i :: 0 <= i < |user.args| && user.args[i] != NodeArg(cur) ==> ArgComputed(user.args[i], visited)) &&
    (InTable(user.target, tables.nop) || (startsGemmOrVector && InTable(user.target, tables.vector)))
  }

  predicate Distinct(s: seq<nat>)
  {
    forall i, j :: 0 <= i < j < |s| ==> s[i] != s[j]
  }

  /** Consecutive members: each member but the last has the next one as its only user, and that user joins. */
  ghost predicate Linked(nodes: map<nat, Node>, order: seq<nat>, visited: set<nat>, tables: Tables, chain: seq<nat>, gv: bool)
  {
    (forall i :: 0 <= i < |chain| ==> chain[i] in nodes && chain[i] in order) &&
    forall i :: 0 <= i < |chain| - 1 ==>
      Users(nodes, order, chain[i]) == [chain[i + 1]] &&
      Joins(nodes[chain[i + 1]], chain[i], gv, visited, tables)
  }

  /** Why the loop ended: the tail has no single user, or that user does not join, or it is already a member. */
  ghost predicate Stopped(nodes: map<nat, Node>, order: seq<nat>, visited: set<nat>, tables: Tables, c: seq<nat>, gv: bool)
    requires |c| >= 1
  {
    var last := c[|c| - 1];
    var us := Users(nodes, order, last);
    |us| != 1 || us[0] !in nodes || !Joins(nodes[us[0]], last, gv, visited, tables) || us[0] in c
  }

  /**
   * The while loop of transform: extend the chain by the tail's user while
   * the tail has exactly one user and that user joins. The loop also stops
   * when the user is already a member, which a graph without cycles never
   * produces.
   */
  function GrowChain(nodes: map<nat, Node>, order: seq<nat>, visited: set<nat>, tables: Tables,
                     chain: seq<nat>, gv: bool): (c: seq<nat>)
    requires |chain| >= 1 && Distinct(chain) && Linked(nodes, order, visited, tables, chain, gv)
    ensures |c| >= |chain| && c[0] == chain[0]
    ensures Distinct(c) && Linked(nodes, order, visited, tables, c, gv)
    ensures Stopped(nodes, order, visited, tables, c, gv)
    decreases (set x | x in order) - (set x | x in chain)
  {
    var cur := chain[|chain| - 1];
    var us := Users(nodes, order, cur);
    if |us| == 1 && us[0] in nodes && Joins(nodes[us[0]], cur, gv, visited, tables) && us[0] !in chain then
      ExtendChain(nodes, order, visited, tables, chain, gv, us[0]);
      GrowChain(nodes, order, visited, tables, chain + [us[0]], gv)
    else
      chain
  }

  /** The state of the inner loop of transform: a linked prefix of the chain that starts at `id`. */
  ghost predicate Growing(nodes: map<nat, Node>, order: seq<nat>, visited: set<nat>, tables: Tables,
                          id: nat, chain: seq<nat>, gv: bool)
  {
    id in nodes && id in order &&
    gv == (InTable(nodes[id].target, tables.gemm) || InTable(nodes[id].target, tables.vector)) &&
    |chain| >= 1 && chain[0] == id && Distinct(chain) && Linked(nodes, order, visited, tables, chain, gv) &&
    GrowChain(nodes, order, visited, tables, chain, gv) == ChainFrom(nodes, order, visited, tables, id)
  }

  /** The loop starts from the chain holding only `id`. */
  lemma GrowingStart(nodes: map<nat, Node>, order: seq<nat>, visited: set<nat>, tables: Tables, id: nat)
    requires id in nodes && id in order
    ensures var gv := InTable(nodes[id].target, tables.gemm) || InTable(nodes[id].target, tables.vector);
      Growing(nodes, order, visited, tables, id, [id], gv) && [nodes[id].args] == BoundArgs(nodes, [id])
  {
  }

  /** A joining sole user outside the chain extends it, and its bound arguments follow. */
  lemma GrowingStep(nodes: map<nat, Node>, order: seq<nat>, visited: set<nat>, tables: Tables,
                    id: nat, chain: seq<nat>, gv: bool, user: nat)
    requires Growing(nodes, order, visited, tables, id, chain, gv)
    requires Users(nodes, order, chain[|chain| - 1]) == [user] && user !in chain && user in nodes
    requires Joins(nodes[user], chain[|chain| - 1], gv, visited, tables)
    ensures Growing(nodes, order, visited, tables, id, chain + [user], gv)
    ensures BoundArgs(nodes, chain + [user]) ==
            BoundArgs(nodes, chain) + [Placeheld(nodes[user].args, chain[|chain| - 1])]
    ensures (set x | x in order) - (set x | x in chain + [user]) < (set x | x in order) - (set x | x in chain)
  {
    ExtendChain(nodes, order, visited, tables, chain, gv, user);
    BoundArgsSnoc(nodes, chain, user);
  }

  /** Without a joining sole user outside the chain, the chain is complete. */
  lemma GrowingDone(nodes: map<nat, Node>, order: seq<nat>, visited: set<nat>, tables: Tables,
                    id: nat, chain: seq<nat>, gv: bool)
    requires Growing(nodes, order, visited, tables, id, chain, gv)
    requires var us := Users(nodes, order, chain[|chain| - 1]);
      !(|us| == 1 && us[0] in nodes && Joins(nodes[us[0]], chain[|chain| - 1], gv, visited, tables) && us[0] !in chain)
    ensures chain == ChainFrom(nodes, order, visited, tables, id)
  {
  }

  lemma ExtendChain(nodes: map<nat, Node>, order: seq<nat>, visited: set<nat>, tables: Tables,
                    chain: seq<nat>, gv: bool, user: nat)
    requires |chain| >= 1 && Distinct(chain) && Linked(nodes, order, visited, tables, chain, gv)
    requires Users(nodes, order, chain[|chain| - 1]) == [user] && user !in chain
    requires Joins(nodes[user], chain[|chain| - 1], gv, visited, tables)
    ensures Distinct(chain + [user]) && Linked(nodes, order, visited, tables, chain + [user], gv)
    ensures (set x | x in order) - (set x | x in chain + [user]) < (set x | x in order) - (set x | x in chain)
  {
    var next := chain + [user];
    var n := |chain|;
    assert user in Users(nodes, order, chain[n - 1]);
    assert user in (set x | x in order) - (set x | x in chain);
    forall i | 0 <= i < |next|
      ensures next[i] in nodes && next[i] in order
    {
      if i < n {
        assert next[i] == chain[i];
      }
    }
    forall i | 0 <= i < |next| - 1
      ensures Users(nodes, order, next[i]) == [next[i + 1]]
      ensures Joins(nodes[next[i + 1]], next[i], gv, visited, tables)
    {
      if i < n - 1 {
        assert next[i] == chain[i] && next[i + 1] == chain[i + 1];
      } else {
        assert next[i] == chain[n - 1] && next[i + 1] == user;
      }
    }
    forall i, j | 0 <= i < j < |next|
      ensures next[i] != next[j]
    {
      if j == n {
        assert next[i] == chain[i];
      } else {
        assert next[i] == chain[i] && next[j] == chain[j];
      }
    }
  }

  /** The chain that starts at a call_function node. */
  function ChainFrom(nodes: map<nat, Node>, order: seq<nat>, visited: set<nat>, tables: Tables, start: nat): (c: seq<nat>)
    requires start in nodes && start in order
    ensures |c| >= 1 && c[0] == start && Distinct(c)
    ensures Linked(nodes, order, visited, tables, c, InTable(nodes[start].target, tables.gemm) || InTable(nodes[start].target, tables.vector))
  {
    var gv := InTable(nodes[start].target, tables.gemm) || InTable(nodes[start].target, tables.vector);
    GrowChain(nodes, order, visited, tables, [start], gv)
  }

  // ---------------------------------------------------------------------------
  // Arguments of the fused node

  /** `tuple(arg if arg != cur_node else 'placeholder' for arg in user.args)`. */
  function Placeheld(args: seq<Arg>, prev: nat): (r: seq<Arg>)
    ensures |r| == |args|
    ensures forall i :: 0 <= i < |args| ==> r[i] == if args[i] == NodeArg(prev) then Marker else args[i]
  {
    seq(|args|, i requires 0 <= i < |args| => if args[i] == NodeArg(prev) then Marker else args[i])
  }

  /** new_args: the first member's own arguments, then each later member's with its predecessor replaced by the marker. */
  function BoundArgs(nodes: map<nat, Node>, chain: seq<nat>): (r: seq<seq<Arg>>)
    requires forall i :: 0 <= i < |chain| ==> chain[i] in nodes
    ensures |r| == |chain|
  {
    seq(|chain|, i requires 0 <= i < |chain| =>
      if i == 0 then nodes[chain[0]].args else Placeheld(nodes[chain[i]].args, chain[i - 1]))
  }

  /** The bound arguments refer only to what the member's own arguments referred to. */
  lemma BoundArgsMentions(nodes: map<nat, Node>, chain: seq<nat>, i: nat, m: nat)
    requires forall i :: 0 <= i < |chain| ==> chain[i] in nodes
    requires i < |chain| && AnyMentions(BoundArgs(nodes, chain)[i], m)
    ensures AnyMentions(nodes[chain[i]].args, m)
  {
    var r := BoundArgs(nodes, chain)[i];
    var j :| 0 <= j < |r| && ArgMentions(r[j], m);
    if i > 0 {
      assert r == Placeheld(nodes[chain[i]].args, chain[i - 1]);
    }
  }

  // ---------------------------------------------------------------------------
  // Rewriting the graph

  /** The modules the pass knows by name: fused operations, and anything else as an opaque module. */
  datatype Module = FusedModule(members: seq<Node>) | OtherModule

  /**
   * The graph of the GraphModule (arena and order) with the name table
   * self.modules; fusedCount counts the fusions done so far, which the
   * termination and progress lemmas measure.
   */
  datatype GraphState = GraphState(nodes: map<nat, Node>, order: seq<nat>, nextId: nat,
                                   modules: map<string, Module>, fusedCount: nat)

  /** A node list without repetitions that lists exactly the live nodes, fresh ids above every live one, and no reference to a missing node. */
  ghost predicate WellFormed(st: GraphState)
  {
    Listed(st) && Closed(st.nodes)
  }

  /** The node list repeats nothing and lists exactly the live nodes, and every live id is below the next fresh one. */
  ghost predicate Listed(st: GraphState)
  {
    Distinct(st.order) &&
    (forall n :: n in st.nodes <==> n in st.order) &&
    (forall n :: n in st.nodes ==> n < st.nextId)
  }

  ghost predicate Closed(nodes: map<nat, Node>)
  {
    forall n :: n in nodes ==> RefersWithin(nodes[n], nodes.Keys)
  }

  /** Every node the node refers to is live. */
  ghost predicate RefersWithin(node: Node, live: set<nat>)
  {
    forall m :: Mentions(node, m) ==> m in live
  }

  /** Position of a node in the node list. */
  function Pos(s: seq<nat>, x: nat): (i: nat)
    requires x in s
    ensures i < |s| && s[i] == x
  {
    if s[0] == x then 0 else 1 + Pos(s[1..], x)
  }

  /** The node list without the members of `drop`, in the same order. */
  function Without(s: seq<nat>, drop: set<nat>): seq<nat>
  {
    if s == [] then []
    else if s[0] in drop then Without(s[1..], drop)
    else [s[0]] + Without(s[1..], drop)
  }

  /** Without keeps exactly the elements outside `drop`, and repeats nothing when the list did not. */
  lemma {:induction false} WithoutMembers(s: seq<nat>, drop: set<nat>)
    ensures forall x :: x in Without(s, drop) <==> x in s && x !in drop
    ensures Distinct(s) ==> Distinct(Without(s, drop))
  {
    if s != [] {
      WithoutMembers(s[1..], drop);
      assert forall x :: x in s <==> x == s[0] || x in s[1..];
      if Distinct(s) {
        DistinctTail(s);
      }
    }
  }

  /** Replace every reference to `from`, at any depth, by a reference to `to`. */
  function RedirectArg(a: Arg, from: nat, to: nat): Arg
  {
    match a
    case NodeArg(id) => if id == from then NodeArg(to) else a
    case ListArg(items) => ListArg(seq(|items|, i requires 0 <= i < |items| => RedirectArg(items[i], from, to)))
    case TupleArg(elems) => TupleArg(seq(|elems|, i requires 0 <= i < |elems| => RedirectArg(elems[i], from, to)))
    case _ => a
  }

  function RedirectArgs(args: seq<Arg>, from: nat, to: nat): (r: seq<Arg>)
    ensures |r| == |args| && forall i :: 0 <= i < |args| ==> r[i] == RedirectArg(args[i], from, to)
  {
    seq(|args|, i requires 0 <= i < |args| => RedirectArg(args[i], from, to))
  }

  /** replace_all_uses_with as seen by one node. */
  function Redirect(node: Node, from: nat, to: nat): Node
  {
    node.(args := RedirectArgs(node.args, from, to), kwargs := RedirectArgs(node.kwargs, from, to))
  }

  /** After the redirection an argument refers to `to` where it referred to `from`, and otherwise to what it did before. */
  lemma {:induction false} RedirectArgMentions(a: Arg, from: nat, to: nat, m: nat)
    ensures ArgMentions(RedirectArg(a, from, to), m) ==> m == to || (m != from && ArgMentions(a, m))
    ensures ArgMentions(a, from) ==> ArgMentions(RedirectArg(a, from, to), to)
  {
    match a
    case ListArg(items) =>
      var r := RedirectArg(a, from, to).items;
      if ArgMentions(a, from) {
        var i :| 0 <= i < |items| && ArgMentions(items[i], from);
        RedirectArgMentions(items[i], from, to, m);
        assert ArgMentions(r[i], to);
      }
      if ArgMentions(RedirectArg(a, from, to), m) {
        var i :| 0 <= i < |r| && ArgMentions(r[i], m);
        RedirectArgMentions(items[i], from, to, m);
        assert m == to || ArgMentions(items[i], m);
      }
    case TupleArg(elems) =>
      var r := RedirectArg(a, from, to).elems;
      if ArgMentions(a, from) {
        var i :| 0 <= i < |elems| && ArgMentions(elems[i], from);
        RedirectArgMentions(elems[i], from, to, m);
        assert ArgMentions(r[i], to);
      }
      if ArgMentions(RedirectArg(a, from, to), m) {
        var i :| 0 <= i < |r| && ArgMentions(r[i], m);
        RedirectArgMentions(elems[i], from, to, m);
        assert m == to || ArgMentions(elems[i], m);
      }
    case _ =>
  }

  /** Some argument of the sequence refers to n. */
  predicate AnyMentions(args: seq<Arg>, n: nat)
  {
    exists i :: 0 <= i < |args| && ArgMentions(args[i], n)
  }

  lemma RedirectArgsMentions(args: seq<Arg>, from: nat, to: nat, m: nat)
    ensures AnyMentions(RedirectArgs(args, from, to), m) ==> m == to || (m != from && AnyMentions(args, m))
    ensures AnyMentions(args, from) ==> AnyMentions(RedirectArgs(args, from, to), to)
  {
    var r := RedirectArgs(args, from, to);
    if AnyMentions(args, from) {
      var i :| 0 <= i < |args| && ArgMentions(args[i], from);
      RedirectArgMentions(args[i], from, to, m);
      assert ArgMentions(r[i], to);
    }
    if AnyMentions(r, m) {
      var i :| 0 <= i < |r| && ArgMentions(r[i], m);
      RedirectArgMentions(args[i], from, to, m);
    }
  }

  lemma RedirectMentions(node: Node, from: nat, to: nat, m: nat)
    ensures Mentions(Redirect(node, from, to), m) ==> m == to || (m != from && Mentions(node, m))
    ensures Mentions(node, from) ==> Mentions(Redirect(node, from, to), to)
  {
    RedirectArgsMentions(node.args, from, to, m);
    RedirectArgsMentions(node.kwargs, from, to, m);
    assert Mentions(node, from) <==> AnyMentions(node.args, from) || AnyMentions(node.kwargs, from);
    var r := Redirect(node, from, to);
    assert Mentions(r, m) <==> AnyMentions(r.args, m) || AnyMentions(r.kwargs, m);
    assert Mentions(r, to) <==> AnyMentions(r.args, to) || AnyMentions(r.kwargs, to);
    assert Mentions(node, m) <==> AnyMentions(node.args, m) || AnyMentions(node.kwargs, m);
  }

  const FusedPrefix: string := "fused_op_"

  /**
   * get_new_attr_name_with_prefix('fused_op_') on the module: the least
   * index whose name is not a submodule yet.
   */
  function FusedName(modules: map<string, Module>): (name: string)
    ensures name !in modules
    ensures IsPrefix(FusedPrefix, name)
    ensures exists j: nat ::
      name == AttrNames.PrefixedName(FusedPrefix, j) && forall i: nat :: i < j ==> AttrNames.PrefixedName(FusedPrefix, i) in modules
  {
    AttrNames.FreshNameLeast(FusedPrefix, modules.Keys);
    AttrNames.FreshName(FusedPrefix, modules.Keys)
  }

  /**
   * The call_module node that replaces a chain: its arguments are
   * (new_args, new_kwargs), a list of argument tuples and a tuple of the
   * members' keyword arguments.
   */
  function FusedNode(nodes: map<nat, Node>, chain: seq<nat>, name: string): (f: Node)
    requires forall i :: 0 <= i < |chain| ==> chain[i] in nodes
    ensures f.op == CallModule && f.target == Attr(name)
  {
    CallFused(name, BoundArgs(nodes, chain), MemberKwargs(nodes, chain))
  }

  /** `create_node('call_module', node_name, (new_args, new_kwargs), {})`. */
  function CallFused(name: string, newArgs: seq<seq<Arg>>, newKwargs: seq<seq<Arg>>): Node
  {
    Node(CallModule, Attr(name),
         [ListArg(seq(|newArgs|, i requires 0 <= i < |newArgs| => TupleArg(newArgs[i]))),
          TupleArg(seq(|newKwargs|, i requires 0 <= i < |newKwargs| => TupleArg(newKwargs[i])))],
         [])
  }

  /** new_kwargs: each member's keyword arguments, in chain order. */
  function MemberKwargs(nodes: map<nat, Node>, chain: seq<nat>): (r: seq<seq<Arg>>)
    requires forall i :: 0 <= i < |chain| ==> chain[i] in nodes
    ensures |r| == |chain| && forall i :: 0 <= i < |chain| ==> r[i] == nodes[chain[i]].kwargs
  {
    seq(|chain|, i requires 0 <= i < |chain| => nodes[chain[i]].kwargs)
  }

  /** The fused node refers only to nodes some member referred to. */
  lemma FusedNodeMentions(nodes: map<nat, Node>, chain: seq<nat>, name: string, m: nat)
    requires forall i :: 0 <= i < |chain| ==> chain[i] in nodes
    requires Mentions(FusedNode(nodes, chain, name), m)
    ensures exists i :: 0 <= i < |chain| && Mentions(nodes[chain[i]], m)
  {
    var f := FusedNode(nodes, chain, name);
    var bound := BoundArgs(nodes, chain);
    assert AnyMentions(f.args, m);
    var k :| 0 <= k < |f.args| && ArgMentions(f.args[k], m);
    if k == 0 {
      var items := f.args[0].items;
      var i :| 0 <= i < |items| && ArgMentions(items[i], m);
      assert items[i] == TupleArg(bound[i]);
      assert AnyMentions(bound[i], m);
      BoundArgsMentions(nodes, chain, i, m);
    } else {
      var elems := f.args[1].elems;
      var i :| 0 <= i < |elems| && ArgMentions(elems[i], m);
      assert elems[i] == TupleArg(nodes[chain[i]].kwargs);
      assert AnyMentions(nodes[chain[i]].kwargs, m);
    }
  }

  /** erase_node refused a member because a node still uses it. */
  datatype FuseError = ErasedNodeHasUsers

  /** A member the node still refers to. */
  function UsedMember(f: Node, chain: seq<nat>): (r: Option<nat>)
    ensures r.None? <==> forall i :: 0 <= i < |chain| ==> !Mentions(f, chain[i])
    ensures r.Some? ==> r.value in chain && Mentions(f, r.value)
  {
    if chain == [] then None
    else if Mentions(f, chain[0]) then Some(chain[0])
    else
      var r := UsedMember(f, chain[1..]);
      assert forall i :: 1 <= i < |chain| ==> chain[i] == chain[1..][i - 1];
      r
  }

  /**
   * Replace a chain of two or more members: insert the fused node before the
   * first member, redirect every use of the last member to it (the fused
   * node's own arguments included), erase the members from the last to the
   * first, and register the fused module. Erasing fails when the fused node
   * still refers to a member, e.g. through a keyword argument or an
   * argument nested in a tuple.
   */
  function Fuse(st: GraphState, chain: seq<nat>): (r: Result<GraphState, FuseError>)
    requires |chain| >= 2 && chain[0] in st.order
    requires forall i :: 0 <= i < |chain| ==> chain[i] in st.nodes
  {
    var name := FusedName(st.modules);
    var f := FusedNode(st.nodes, chain, name);
    if UsedMember(Redirect(f, chain[|chain| - 1], st.nextId), chain).Some? then Err(ErasedNodeHasUsers)
    else
      Ok(GraphState(NewNodes(st.nodes, chain, st.nextId, f), NewOrder(st.order, chain, st.nextId), st.nextId + 1,
                    st.modules[name := FusedModule(MemberNodes(st.nodes, chain))], st.fusedCount + 1))
  }

  /** The node list with the fused node inserted before the first member and the members erased. */
  function NewOrder(order: seq<nat>, chain: seq<nat>, id: nat): seq<nat>
    requires |chain| >= 1 && chain[0] in order
  {
    var p := Pos(order, chain[0]);
    Without(order[..p] + [id] + order[p..], Members(chain))
  }

  /** The live nodes after the fusion: the fused node added, the members erased, uses of the last member redirected. */
  function NewNodes(nodes: map<nat, Node>, chain: seq<nat>, id: nat, f: Node): (r: map<nat, Node>)
    requires |chain| >= 1
    ensures forall n :: n in r <==> (n in nodes || n == id) && n !in chain
    ensures id !in chain ==> r[id] == Redirect(f, chain[|chain| - 1], id)
    ensures forall n :: n in r && n != id ==> r[n] == Redirect(nodes[n], chain[|chain| - 1], id)
  {
    var last := chain[|chain| - 1];
    map n | n in nodes.Keys + {id} && n !in Members(chain) :: Redirect(if n == id then f else nodes[n], last, id)
  }

  /** The members' nodes in chain order: the modules of the FusedOperations. */
  function MemberNodes(nodes: map<nat, Node>, chain: seq<nat>): (ms: seq<Node>)
    requires forall i :: 0 <= i < |chain| ==> chain[i] in nodes
    ensures |ms| == |chain| && forall i :: 0 <= i < |chain| ==> ms[i] == nodes[chain[i]]
  {
    seq(|chain|, i requires 0 <= i < |chain| => nodes[chain[i]])
  }

  function Members(chain: seq<nat>): (m: set<nat>)
    ensures forall x :: x in m <==> x in chain
  {
    set i | 0 <= i < |chain| :: chain[i]
  }

  /** Each member but the last has the next member as its only user. */
  ghost predicate SoleUsers(nodes: map<nat, Node>, order: seq<nat>, chain: seq<nat>)
  {
    forall i :: 0 <= i < |chain| - 1 ==> Users(nodes, order, chain[i]) == [chain[i + 1]]
  }

  lemma LinkedSoleUsers(nodes: map<nat, Node>, order: seq<nat>, visited: set<nat>, tables: Tables, chain: seq<nat>, gv: bool)
    requires Linked(nodes, order, visited, tables, chain, gv)
    ensures SoleUsers(nodes, order, chain)
  {
  }

  lemma {:induction false} WithoutAppend(a: seq<nat>, b: seq<nat>, drop: set<nat>)
    ensures Without(a + b, drop) == Without(a, drop) + Without(b, drop)
  {
    if a == [] {
      assert a + b == b;
    } else {
      assert (a + b)[0] == a[0] && (a + b)[1..] == a[1..] + b;
      WithoutAppend(a[1..], b, drop);
    }
  }

  lemma DistinctTail(s: seq<nat>)
    requires Distinct(s) && s != []
    ensures Distinct(s[1..]) && s[0] !in s[1..]
  {
    var t := s[1..];
    forall i, j | 0 <= i < j < |t| ensures t[i] != t[j] {
      assert t[i] == s[i + 1] && t[j] == s[j + 1];
    }
  }

  lemma {:induction false} WithoutCount(s: seq<nat>, drop: set<nat>)
    requires Distinct(s)
    ensures |Without(s, drop)| + |Members(s) * drop| == |s|
  {
    if s != [] {
      var t := s[1..];
      DistinctTail(s);
      WithoutCount(t, drop);
      var both := Members(s) * drop;
      var rest := Members(t) * drop;
      assert Members(s) == {s[0]} + Members(t);
      if s[0] in drop {
        assert both == {s[0]} + rest;
        assert s[0] !in rest;
        assert |both| == |rest| + 1;
      } else {
        assert both == rest;
      }
    }
  }

  lemma {:induction false} DistinctCard(s: seq<nat>)
    requires Distinct(s)
    ensures |Members(s)| == |s|
  {
    if s != [] {
      var t := s[1..];
      DistinctTail(s);
      DistinctCard(t);
      assert s[0] !in t;
      assert Members(s) == {s[0]} + Members(t);
    }
  }

  lemma {:induction false} RedirectArgUnused(a: Arg, from: nat, to: nat)
    requires !ArgMentions(a, from)
    ensures RedirectArg(a, from, to) == a
  {
    match a
    case ListArg(items) =>
      forall i | 0 <= i < |items| ensures RedirectArg(items[i], from, to) == items[i] {
        RedirectArgUnused(items[i], from, to);
      }
      assert RedirectArg(a, from, to).items == items;
    case TupleArg(elems) =>
      forall i | 0 <= i < |elems| ensures RedirectArg(elems[i], from, to) == elems[i] {
        RedirectArgUnused(elems[i], from, to);
      }
      assert RedirectArg(a, from, to).elems == elems;
    case _ =>
  }

  /** A node that does not use the redirected node is left as it was. */
  lemma RedirectUnused(node: Node, from: nat, to: nat)
    requires !Mentions(node, from)
    ensures Redirect(node, from, to) == node
  {
    forall i | 0 <= i < |node.args| ensures RedirectArg(node.args[i], from, to) == node.args[i] {
      RedirectArgUnused(node.args[i], from, to);
    }
    forall i | 0 <= i < |node.kwargs| ensures RedirectArg(node.kwargs[i], from, to) == node.kwargs[i] {
      RedirectArgUnused(node.kwargs[i], from, to);
    }
    assert RedirectArgs(node.args, from, to) == node.args;
    assert RedirectArgs(node.kwargs, from, to) == node.kwargs;
  }

  lemma InsertFresh(s: seq<nat>, p: nat, x: nat)
    requires Distinct(s) && p <= |s| && x !in s
    ensures Distinct(s[..p] + [x] + s[p..])
    ensures forall y :: y in s[..p] + [x] + s[p..] <==> y in s || y == x
  {
    var t := s[..p] + [x] + s[p..];
    assert s == s[..p] + s[p..];
    forall i, j | 0 <= i < j < |t| ensures t[i] != t[j] {
      if i < p && j > p {
        assert t[i] == s[i] && t[j] == s[j - 1];
      } else if i > p {
        assert t[i] == s[i - 1] && t[j] == s[j - 1];
      } else if i < p && j < p {
        assert t[i] == s[i] && t[j] == s[j];
      }
    }
  }

  /** When Fuse fails. */
  lemma FuseFails(st: GraphState, chain: seq<nat>)
    requires |chain| >= 2 && chain[0] in st.order
    requires forall i :: 0 <= i < |chain| ==> chain[i] in st.nodes
    ensures Fuse(st, chain).Err? <==>
      UsedMember(Redirect(FusedNode(st.nodes, chain, FusedName(st.modules)), chain[|chain| - 1], st.nextId), chain).Some?
    ensures Fuse(st, chain).Err? ==> Fuse(st, chain).error == ErasedNodeHasUsers
  {
  }

  /** A successful Fuse, spelled out. */
  lemma FuseValue(st: GraphState, chain: seq<nat>)
    requires |chain| >= 2 && chain[0] in st.order
    requires forall i :: 0 <= i < |chain| ==> chain[i] in st.nodes
    requires Fuse(st, chain).Ok?
    ensures var name := FusedName(st.modules);
      Fuse(st, chain).value ==
        GraphState(NewNodes(st.nodes, chain, st.nextId, FusedNode(st.nodes, chain, name)),
                   NewOrder(st.order, chain, st.nextId), st.nextId + 1,
                   st.modules[name := FusedModule(MemberNodes(st.nodes, chain))], st.fusedCount + 1)
  {
  }

  /** The next id is fresh: neither live nor a member. */
  lemma FreshId(st: GraphState, chain: seq<nat>)
    requires Listed(st)
    requires forall i :: 0 <= i < |chain| ==> chain[i] in st.nodes
    ensures st.nextId !in st.nodes && st.nextId !in st.order && st.nextId !in chain
  {
    assert st.nextId !in st.nodes;
  }

  /** The new node list repeats nothing and holds the fused node and every node but the members. */
  lemma NewOrderMembers(order: seq<nat>, chain: seq<nat>, id: nat)
    requires Distinct(order) && id !in order && |chain| >= 1 && chain[0] in order
    ensures Distinct(NewOrder(order, chain, id))
    ensures forall x :: x in NewOrder(order, chain, id) <==> (x in order || x == id) && x !in chain
  {
    var p := Pos(order, chain[0]);
    InsertFresh(order, p, id);
    WithoutMembers(order[..p] + [id] + order[p..], Members(chain));
  }

  lemma NewOrderLength(order: seq<nat>, chain: seq<nat>, id: nat)
    requires Distinct(order) && id !in order && |chain| >= 1 && Distinct(chain)
    requires forall i :: 0 <= i < |chain| ==> chain[i] in order
    ensures |NewOrder(order, chain, id)| == |order| - |chain| + 1
  {
    var p := Pos(order, chain[0]);
    var ins := order[..p] + [id] + order[p..];
    InsertFresh(order, p, id);
    WithoutCount(ins, Members(chain));
    assert Members(ins) * Members(chain) == Members(chain);
    DistinctCard(chain);
  }

  lemma NewOrderPlace(order: seq<nat>, chain: seq<nat>, id: nat)
    requires Distinct(order) && id !in order && |chain| >= 1
    requires forall i :: 0 <= i < |chain| ==> chain[i] in order
    ensures var r := NewOrder(order, chain, id);
      var p := Pos(order, chain[0]);
      id in r &&
      r[..Pos(r, id)] == Without(order[..p], Members(chain)) &&
      r[Pos(r, id) + 1..] == Without(order[p..], Members(chain))
  {
    var M := Members(chain);
    var p := Pos(order, chain[0]);
    var a := Without(order[..p], M);
    var b := Without(order[p..], M);
    WithoutAppend(order[..p] + [id], order[p..], M);
    WithoutAppend(order[..p], [id], M);
    assert Without([id], M) == [id];
    var r := NewOrder(order, chain, id);
    assert r == a + [id] + b;
    assert r[|a|] == id;
    WithoutMembers(order[..p], M);
    assert id !in a;
    var q := Pos(r, id);
    InsertFresh(order, p, id);
    WithoutMembers(order[..p] + [id] + order[p..], M);
    assert q == |a|;
    assert r[..q] == a;
    assert r[q + 1..] == b;
  }

  /** The fused node, once redirected, refers to itself or to live nodes outside the chain. */
  lemma FusedNodeRefs(nodes: map<nat, Node>, chain: seq<nat>, name: string, id: nat, m: nat)
    requires Closed(nodes) && |chain| >= 1
    requires forall i :: 0 <= i < |chain| ==> chain[i] in nodes
    requires forall i :: 0 <= i < |chain| ==> !Mentions(Redirect(FusedNode(nodes, chain, name), chain[|chain| - 1], id), chain[i])
    requires Mentions(Redirect(FusedNode(nodes, chain, name), chain[|chain| - 1], id), m)
    ensures m == id || (m in nodes && m !in chain)
  {
    var f := FusedNode(nodes, chain, name);
    RedirectMentions(f, chain[|chain| - 1], id, m);
    if m != id {
      FusedNodeMentions(nodes, chain, name, m);
      var i :| 0 <= i < |chain| && Mentions(nodes[chain[i]], m);
      assert RefersWithin(nodes[chain[i]], nodes.Keys);
    }
  }

  /** A surviving node, once redirected, refers to the fused node or to live nodes outside the chain. */
  lemma SurvivorRefs(nodes: map<nat, Node>, order: seq<nat>, chain: seq<nat>, n: nat, id: nat, m: nat)
    requires Closed(nodes) && |chain| >= 1 && SoleUsers(nodes, order, chain)
    requires n in nodes && n in order && n !in chain
    requires Mentions(Redirect(nodes[n], chain[|chain| - 1], id), m)
    ensures m == id || (m in nodes && m !in chain)
  {
    RedirectMentions(nodes[n], chain[|chain| - 1], id, m);
    if m != id {
      assert RefersWithin(nodes[n], nodes.Keys);
      if m in chain {
        var j :| 0 <= j < |chain| && chain[j] == m;
        if j < |chain| - 1 {
          OnlyNextUses(nodes, order, chain, j, n);
        }
      }
    }
  }

  /** Under SoleUsers the only live user of a member is the next member. */
  lemma OnlyNextUses(nodes: map<nat, Node>, order: seq<nat>, chain: seq<nat>, j: nat, n: nat)
    requires SoleUsers(nodes, order, chain) && j < |chain| - 1
    requires n in nodes && n in order && Mentions(nodes[n], chain[j])
    ensures n == chain[j + 1]
  {
    assert n in Users(nodes, order, chain[j]);
  }

  /** Fusing a linked chain keeps the graph well formed; in particular no node is left referring to an erased member. */
  lemma FusePreservesWellFormed(st: GraphState, chain: seq<nat>)
    requires WellFormed(st) && |chain| >= 2 && Distinct(chain)
    requires forall i :: 0 <= i < |chain| ==> chain[i] in st.nodes
    requires SoleUsers(st.nodes, st.order, chain)
    requires Fuse(st, chain).Ok?
    ensures WellFormed(Fuse(st, chain).value)
  {
    FuseValue(st, chain);
    FreshId(st, chain);
    var st' := Fuse(st, chain).value;
    var id := st.nextId;
    var name := FusedName(st.modules);
    NewOrderMembers(st.order, chain, id);
    forall n | n in st'.nodes ensures RefersWithin(st'.nodes[n], st'.nodes.Keys) {
      forall m | Mentions(st'.nodes[n], m) ensures m in st'.nodes {
        if n == id {
          FusedNodeRefs(st.nodes, chain, name, id, m);
        } else {
          SurvivorRefs(st.nodes, st.order, chain, n, id, m);
        }
      }
    }
  }

  /** The node list shrinks by the chain's length less one: the members go and one fused node comes. */
  lemma FuseShrinks(st: GraphState, chain: seq<nat>)
    requires Listed(st) && |chain| >= 2 && Distinct(chain) && chain[0] in st.order
    requires forall i :: 0 <= i < |chain| ==> chain[i] in st.nodes
    requires Fuse(st, chain).Ok?
    ensures |Fuse(st, chain).value.order| == |st.order| - |chain| + 1
  {
    assert st.nextId !in st.nodes;
    NewOrderLength(st.order, chain, st.nextId);
  }

  /**
   * Every former user of the last member now uses the fused node, no
   * node refers to a member any more, and a node that did not use the
   * last member is unchanged.
   */
  lemma FuseRedirectsUses(st: GraphState, chain: seq<nat>)
    requires WellFormed(st) && |chain| >= 2 && Distinct(chain)
    requires forall i :: 0 <= i < |chain| ==> chain[i] in st.nodes
    requires SoleUsers(st.nodes, st.order, chain)
    requires Fuse(st, chain).Ok?
    ensures var st' := Fuse(st, chain).value;
      var last := chain[|chain| - 1];
      (forall n :: n in st.nodes && n !in chain && Mentions(st.nodes[n], last) ==> Mentions(st'.nodes[n], st.nextId)) &&
      (forall n :: n in st.nodes && n !in chain && !Mentions(st.nodes[n], last) ==> st'.nodes[n] == st.nodes[n]) &&
      (forall n, i :: n in st'.nodes && 0 <= i < |chain| ==> !Mentions(st'.nodes[n], chain[i]))
  {
    FusePreservesWellFormed(st, chain);
    var st' := Fuse(st, chain).value;
    var last := chain[|chain| - 1];
    var id := st.nextId;
    assert st'.nodes == NewNodes(st.nodes, chain, id, FusedNode(st.nodes, chain, FusedName(st.modules)));
    forall n | n in st.nodes && n !in chain
      ensures Mentions(st.nodes[n], last) ==> Mentions(st'.nodes[n], id)
      ensures !Mentions(st.nodes[n], last) ==> st'.nodes[n] == st.nodes[n]
    {
      assert n != id;
      RedirectMentions(st.nodes[n], last, id, last);
      if !Mentions(st.nodes[n], last) {
        RedirectUnused(st.nodes[n], last, id);
      }
    }
  }

  /** The fused node stands where the first member stood, between the same surviving neighbours. */
  lemma FuseTakesFirstPlace(st: GraphState, chain: seq<nat>)
    requires Listed(st) && |chain| >= 2 && chain[0] in st.order
    requires forall i :: 0 <= i < |chain| ==> chain[i] in st.nodes
    requires Fuse(st, chain).Ok?
    ensures var st' := Fuse(st, chain).value;
      var p := Pos(st.order, chain[0]);
      st.nextId in st'.order &&
      st'.order[..Pos(st'.order, st.nextId)] == Without(st.order[..p], Members(chain)) &&
      st'.order[Pos(st'.order, st.nextId) + 1..] == Without(st.order[p..], Members(chain))
  {
    assert st.nextId !in st.nodes;
    NewOrderPlace(st.order, chain, st.nextId);
  }

  /** The fused module is registered under the least free fused_op_ name with the members in chain order; other names are untouched. */
  lemma FuseRegisters(st: GraphState, chain: seq<nat>)
    requires Listed(st) && |chain| >= 2 && chain[0] in st.order
    requires forall i :: 0 <= i < |chain| ==> chain[i] in st.nodes
    requires Fuse(st, chain).Ok?
    ensures var st' := Fuse(st, chain).value;
      var name := FusedName(st.modules);
      name !in st.modules && name in st'.modules && st'.modules[name].FusedModule? &&
      |st'.modules[name].members| == |chain| &&
      (forall i :: 0 <= i < |chain| ==> st'.modules[name].members[i] == st.nodes[chain[i]]) &&
      (forall k :: k in st.modules && k != name ==> k in st'.modules && st'.modules[k] == st.modules[k]) &&
      st'.fusedCount == st.fusedCount + 1 && st.nextId in st'.nodes &&
      st'.nodes[st.nextId].target == Attr(name) && st'.nodes[st.nextId].op == CallModule
  {
    FuseValue(st, chain);
    FreshId(st, chain);
    var name := FusedName(st.modules);
    var f := FusedNode(st.nodes, chain, name);
    assert Fuse(st, chain).value.nodes[st.nextId] == Redirect(f, chain[|chain| - 1], st.nextId);
  }

  // ---------------------------------------------------------------------------
  // The transform pass

  /** Where a visit leaves the pass: the graph, the visited set, and the error that stopped it, if any. */
  datatype Pass = Pass(st: GraphState, visited: set<nat>, failed: Option<FuseError>)

  /**
   * One iteration of transform's outer loop, for a node of the snapshot.
   * A node already erased by an earlier fusion is skipped (the graph's
   * iterator skips erased nodes); a node that is not call_function, or
   * whose chain is just itself, is marked visited; otherwise its chain is
   * fused and the fused node is marked visited.
   */
  function Visit(st: GraphState, visited: set<nat>, id: nat, tables: Tables): (r: Pass)
    requires WellFormed(st)
    ensures WellFormed(r.st)
  {
    if id !in st.nodes then Pass(st, visited, None)
    else if st.nodes[id].op != CallFunction then Pass(st, visited + {id}, None)
    else
      var chain := ChainFrom(st.nodes, st.order, visited, tables, id);
      if |chain| == 1 then Pass(st, visited + {id}, None)
      else
        match Fuse(st, chain)
        case Err(e) => Pass(st, visited, Some(e))
        case Ok(st') =>
          LinkedSoleUsers(st.nodes, st.order, visited, tables, chain,
                          InTable(st.nodes[id].target, tables.gemm) || InTable(st.nodes[id].target, tables.vector));
          FusePreservesWellFormed(st, chain);
          Pass(st', visited + {st.nextId}, None)
  }

  /** transform's outer loop over the snapshot `ids` of the node list, stopping at the first failed fusion. */
  function RunPass(st: GraphState, ids: seq<nat>, tables: Tables): (r: Pass)
    requires WellFormed(st)
    ensures WellFormed(r.st)
  {
    if ids == [] then Pass(st, {}, None)
    else
      var p := RunPass(st, ids[..|ids| - 1], tables);
      if p.failed.Some? then p else Visit(p.st, p.visited, ids[|ids| - 1], tables)
  }

  /**
   * A visit never drops a visited node, never brings back an id it did not
   * create, leaves the graph alone unless it fuses, and each fusion adds
   * one module and removes at least one node; a node it processes without
   * error is erased or visited.
   */
  lemma VisitEffect(st: GraphState, visited: set<nat>, id: nat, tables: Tables)
    requires WellFormed(st)
    ensures var r := Visit(st, visited, id, tables);
      visited <= r.visited &&
      (forall n :: n in r.st.nodes && n < st.nextId ==> n in st.nodes) &&
      st.nextId <= r.st.nextId &&
      (r.st.fusedCount == st.fusedCount ==> r.st == st) &&
      (r.st.fusedCount == st.fusedCount || r.st.fusedCount == st.fusedCount + 1) &&
      (r.st.fusedCount == st.fusedCount + 1 ==> |r.st.order| < |st.order|) &&
      (r.failed.None? ==> id !in r.st.nodes || id in r.visited)
  {
    var r := Visit(st, visited, id, tables);
    if id in st.nodes && st.nodes[id].op == CallFunction {
      var chain := ChainFrom(st.nodes, st.order, visited, tables, id);
      if |chain| > 1 && Fuse(st, chain).Ok? {
        FuseValue(st, chain);
        FreshId(st, chain);
        FuseShrinks(st, chain);
        assert chain[0] == id;
        assert r.st.nodes == NewNodes(st.nodes, chain, st.nextId, FusedNode(st.nodes, chain, FusedName(st.modules)));
      }
    }
  }

  /**
   * Over the whole pass: each fusion shrinks the node list, so the node
   * count plus the number of fused modules never grows; and every node of
   * the snapshot that is still in the graph when the pass ends without
   * error was visited.
   */
  lemma {:induction false} RunPassEffect(st: GraphState, ids: seq<nat>, tables: Tables)
    requires WellFormed(st)
    requires forall i :: 0 <= i < |ids| ==> ids[i] < st.nextId
    ensures var r := RunPass(st, ids, tables);
      st.fusedCount <= r.st.fusedCount &&
      |r.st.order| + r.st.fusedCount <= |st.order| + st.fusedCount &&
      st.nextId <= r.st.nextId &&
      (forall n :: n in r.st.nodes && n < st.nextId ==> n in st.nodes) &&
      (r.failed.None? ==> forall i :: 0 <= i < |ids| && ids[i] in r.st.nodes ==> ids[i] in r.visited)
  {
    if ids != [] {
      var front := ids[..|ids| - 1];
      var x := ids[|ids| - 1];
      RunPassEffect(st, front, tables);
      RunPassLast(st, ids, tables);
      var p := RunPass(st, front, tables);
      if p.failed.None? {
        VisitEffect(p.st, p.visited, x, tables);
        var r := Visit(p.st, p.visited, x, tables);
        if r.failed.None? {
          assert forall i :: 0 <= i < |ids| - 1 ==> front[i] == ids[i];
          VisitedAfterStep(ids, p.st.nextId, p.st.nodes.Keys, p.visited, r.st.nodes.Keys, r.visited);
        }
      }
    }
  }

  /** The last id of a snapshot is visited after the others, unless a fusion has already failed. */
  lemma RunPassLast(st: GraphState, ids: seq<nat>, tables: Tables)
    requires WellFormed(st) && ids != []
    ensures var p := RunPass(st, ids[..|ids| - 1], tables);
      RunPass(st, ids, tables) == if p.failed.Some? then p else Visit(p.st, p.visited, ids[|ids| - 1], tables)
  {
  }

  /** Visiting the last id keeps every earlier still-live id visited. */
  lemma VisitedAfterStep(ids: seq<nat>, bound: nat, before: set<nat>, visitedBefore: set<nat>,
                         after: set<nat>, visitedAfter: set<nat>)
    requires ids != [] && forall i :: 0 <= i < |ids| ==> ids[i] < bound
    requires forall i :: 0 <= i < |ids| - 1 && ids[i] in before ==> ids[i] in visitedBefore
    requires visitedBefore <= visitedAfter
    requires forall n :: n in after && n < bound ==> n in before
    requires ids[|ids| - 1] !in after || ids[|ids| - 1] in visitedAfter
    ensures forall i :: 0 <= i < |ids| && ids[i] in after ==> ids[i] in visitedAfter
  {
  }

  lemma BoundArgsSnoc(nodes: map<nat, Node>, chain: seq<nat>, user: nat)
    requires |chain| >= 1 && user in nodes
    requires forall i :: 0 <= i < |chain| ==> chain[i] in nodes
    ensures BoundArgs(nodes, chain + [user]) ==
            BoundArgs(nodes, chain) + [Placeheld(nodes[user].args, chain[|chain| - 1])]
  {
    var c := chain + [user];
    assert forall i :: 0 <= i < |chain| ==> c[i] == chain[i];
  }

  /** Once a lookup has failed, the rest of the node list changes nothing. */
  lemma {:induction false} EmitStaysFailed<P>(st: GraphState, ids: seq<nat>, j: nat, mapOp: FusedOp -> Option<P>)
    requires forall i :: 0 <= i < |ids| ==> ids[i] in st.nodes
    requires j <= |ids| && Emit(st, ids[..j], mapOp).Err?
    ensures Emit(st, ids, mapOp) == Emit(st, ids[..j], mapOp)
  {
    if j < |ids| {
      assert ids[..|ids| - 1][..j] == ids[..j];
      EmitStaysFailed(st, ids[..|ids| - 1], j, mapOp);
    } else {
      assert ids[..j] == ids;
    }
  }

  /** One more id of the snapshot: a visit, unless a fusion has already failed. */
  lemma RunPassStep(st: GraphState, ids: seq<nat>, i: nat, tables: Tables)
    requires WellFormed(st) && i < |ids|
    ensures var p := RunPass(st, ids[..i], tables);
      RunPass(st, ids[..i + 1], tables) ==
        if p.failed.Some? then p else Visit(p.st, p.visited, ids[i], tables)
  {
    assert ids[..i + 1][..i] == ids[..i];
  }

  /** Once a fusion has failed, the rest of the snapshot changes nothing. */
  lemma {:induction false} FailureStops(st: GraphState, ids: seq<nat>, j: nat, tables: Tables)
    requires WellFormed(st) && j <= |ids|
    requires RunPass(st, ids[..j], tables).failed.Some?
    ensures RunPass(st, ids, tables) == RunPass(st, ids[..j], tables)
  {
    if j < |ids| {
      assert ids[..|ids| - 1][..j] == ids[..j];
      FailureStops(st, ids[..|ids| - 1], j, tables);
    } else {
      assert ids[..j] == ids;
    }
  }

  // ---------------------------------------------------------------------------
  // Listing operations and generating parameters

  /** An operation handed to map_operation: the fused members, and the bound arguments of a lone call_function node. */
  datatype FusedOp = FusedOp(members: seq<Node>, args: Option<seq<seq<Arg>>>)

  /** self.modules[node.target] raised KeyError. */
  datatype GenError = UnknownModule(node: nat)

  /**
   * The operation a node contributes: the fused module of a call_module
   * node that names one, a one-member operation for a call_function node,
   * nothing otherwise. A call_module node whose target is not a known
   * module name is a lookup error.
   */
  function OpOf(st: GraphState, id: nat): (r: Result<Option<FusedOp>, GenError>)
    requires id in st.nodes
    ensures r.Err? <==> st.nodes[id].op == CallModule && !(st.nodes[id].target.Attr? && st.nodes[id].target.name in st.modules)
    ensures r.Ok? && r.value.Some? ==>
      (st.nodes[id].op == CallFunction && r.value.value == FusedOp([st.nodes[id]], Some([st.nodes[id].args]))) ||
      (st.nodes[id].op == CallModule && st.modules[st.nodes[id].target.name] == FusedModule(r.value.value.members))
    ensures st.nodes[id].op != CallModule && st.nodes[id].op != CallFunction ==> r == Ok(None)
  {
    var node := st.nodes[id];
    if node.op == CallModule then
      if node.target.Attr? && node.target.name in st.modules then
        match st.modules[node.target.name]
        case FusedModule(members) => Ok(Some(FusedOp(members, None)))
        case OtherModule => Ok(None)
      else Err(UnknownModule(id))
    else if node.op == CallFunction then Ok(Some(FusedOp([node], Some([node.args]))))
    else Ok(None)
  }

  /** get_operations over the node list `ids`: the operations in node order, or the first lookup error. */
  function Operations(st: GraphState, ids: seq<nat>): (r: Result<seq<FusedOp>, GenError>)
    requires forall i :: 0 <= i < |ids| ==> ids[i] in st.nodes
    ensures r.Ok? ==> |r.value| <= |ids|
  {
    if ids == [] then Ok([])
    else
      var front := Operations(st, ids[..|ids| - 1]);
      if front.Err? then front
      else
        match OpOf(st, ids[|ids| - 1])
        case Err(e) => Err(e)
        case Ok(None) => front
        case Ok(Some(op)) => Ok(front.value + [op])
  }

  /** gen_code over the node list `ids`: each operation's parameters in node order, skipping those map_operation declines. */
  function Emit<P>(st: GraphState, ids: seq<nat>, mapOp: FusedOp -> Option<P>): Result<seq<P>, GenError>
    requires forall i :: 0 <= i < |ids| ==> ids[i] in st.nodes
  {
    if ids == [] then Ok([])
    else
      var front := Emit(st, ids[..|ids| - 1], mapOp);
      if front.Err? then front
      else
        match OpOf(st, ids[|ids| - 1])
        case Err(e) => Err(e)
        case Ok(None) => front
        case Ok(Some(op)) => if mapOp(op).Some? then Ok(front.value + [mapOp(op).value]) else front
  }

  /** Keep map_operation's answers that are not None. */
  function FilterMap<P>(ops: seq<FusedOp>, mapOp: FusedOp -> Option<P>): (ps: seq<P>)
    ensures |ps| <= |ops|
  {
    if ops == [] then []
    else
      var front := FilterMap(ops[..|ops| - 1], mapOp);
      var last := mapOp(ops[|ops| - 1]);
      if last.Some? then front + [last.value] else front
  }

  /** gen_code produces exactly map_operation applied to get_operations' list, with the None answers dropped, and fails exactly when it does. */
  lemma {:induction false} EmitIsMappedOperations<P>(st: GraphState, ids: seq<nat>, mapOp: FusedOp -> Option<P>)
    requires forall i :: 0 <= i < |ids| ==> ids[i] in st.nodes
    ensures Operations(st, ids).Err? <==> Emit(st, ids, mapOp).Err?
    ensures Operations(st, ids).Err? ==> Emit(st, ids, mapOp).error == Operations(st, ids).error
    ensures Operations(st, ids).Ok? ==> Emit(st, ids, mapOp).value == FilterMap(Operations(st, ids).value, mapOp)
  {
    if ids != [] {
      var front := ids[..|ids| - 1];
      EmitIsMappedOperations(st, front, mapOp);
      var ops := Operations(st, front);
      if ops.Ok? {
        match OpOf(st, ids[|ids| - 1])
        case Err(e) =>
        case Ok(None) =>
        case Ok(Some(op)) =>
          var all := ops.value + [op];
          assert all[..|all| - 1] == ops.value;
      }
    }
  }

  /** Listing the operations of a concatenated node list concatenates the lists. */
  lemma {:induction false} OperationsAppend(st: GraphState, a: seq<nat>, b: seq<nat>)
    requires forall i :: 0 <= i < |a| ==> a[i] in st.nodes
    requires forall i :: 0 <= i < |b| ==> b[i] in st.nodes
    ensures var ab := Operations(st, a + b);
      (Operations(st, a).Ok? && Operations(st, b).Ok?) ==> ab == Ok(Operations(st, a).value + Operations(st, b).value)
    ensures Operations(st, a).Err? ==> Operations(st, a + b) == Operations(st, a)
  {
    if b == [] {
      assert a + b == a;
      if Operations(st, a).Ok? {
        assert Operations(st, a).value + [] == Operations(st, a).value;
      }
    } else {
      var bf := b[..|b| - 1];
      assert (a + b)[..|a + b| - 1] == a + bf;
      assert (a + b)[|a + b| - 1] == b[|b| - 1];
      OperationsAppend(st, a, bf);
      if Operations(st, a).Ok? && Operations(st, b).Ok? {
        var x := Operations(st, a).value;
        var y := Operations(st, bf).value;
        match OpOf(st, b[|b| - 1])
        case Err(e) =>
        case Ok(None) =>
        case Ok(Some(op)) =>
          assert (x + y) + [op] == x + (y + [op]);
      }
    }
  }

  /** A graph whose nodes are only placeholders, attribute reads and outputs yields no operations. */
  lemma {:induction false} NoCallsNoOperations(st: GraphState, ids: seq<nat>)
    requires forall i :: 0 <= i < |ids| ==> ids[i] in st.nodes
    requires forall i :: 0 <= i < |ids| ==> st.nodes[ids[i]].op in {PlaceholderOp, GetAttr, OutputOp}
    ensures Operations(st, ids) == Ok([])
  {
    if ids != [] {
      NoCallsNoOperations(st, ids[..|ids| - 1]);
    }
  }

  // ---------------------------------------------------------------------------
  // Running a fused module

  /** A run-time argument: a value, a string, or Python's None (the result before the first member runs). */
  datatype RtArg<V> = Value(v: V) | Text(s: string) | NoneValue

  /** Why FusedOperations.forward stopped: a member that is not call_function, or a missing entry in args_list or kwargs_list. */
  datatype ForwardError = NotCallFunction(index: nat) | ArgsIndexError(index: nat) | KwargsIndexError(index: nat)

  /** `tuple(arg if arg != 'placeholder' else result for arg in args_list[i])`. */
  function Substitute<V>(args: seq<RtArg<V>>, result: RtArg<V>): (r: seq<RtArg<V>>)
    ensures |r| == |args|
    ensures forall j :: 0 <= j < |args| ==> r[j] == if args[j] == Text("placeholder") then result else args[j]
  {
    seq(|args|, j requires 0 <= j < |args| => if args[j] == Text("placeholder") then result else args[j])
  }

  /** The first member forward cannot run, or the member count when it can run them all. */
  function FirstFailure(members: seq<Node>, nArgs: nat, nKwargs: nat): (k: nat)
    ensures k <= |members| && k <= nArgs && k <= nKwargs
    ensures forall i :: 0 <= i < k ==> members[i].op == CallFunction
    ensures k < |members| ==> members[k].op != CallFunction || k >= nArgs || k >= nKwargs
  {
    if members == [] then 0
    else if members[0].op != CallFunction || nArgs == 0 || nKwargs == 0 then 0
    else 1 + FirstFailure(members[1..], nArgs - 1, nKwargs - 1)
  }

  /** The result and the argument tuples after running the first n members. */
  function RunMembers<V(!new)>(members: seq<Node>, argsList: seq<seq<RtArg<V>>>, kwargsList: seq<seq<RtArg<V>>>,
                               call: (Node, seq<RtArg<V>>, seq<RtArg<V>>) -> V, n: nat): (r: (RtArg<V>, seq<seq<RtArg<V>>>))
    requires n <= |members| && n <= |argsList| && n <= |kwargsList|
    ensures |r.1| == n
  {
    if n == 0 then (NoneValue, [])
    else
      var prev := RunMembers(members, argsList, kwargsList, call, n - 1);
      var args := Substitute(argsList[n - 1], prev.0);
      (Value(call(members[n - 1], args, kwargsList[n - 1])), prev.1 + [args])
  }

  /** What member i finds in place of 'placeholder': None for the first member, else the previous member's result. */
  function Fed<V>(members: seq<Node>, bound: seq<seq<RtArg<V>>>, kwargsList: seq<seq<RtArg<V>>>,
                  call: (Node, seq<RtArg<V>>, seq<RtArg<V>>) -> V, i: nat): RtArg<V>
    requires i <= |members| && i <= |bound| && i <= |kwargsList|
  {
    if i == 0 then NoneValue else Value(call(members[i - 1], bound[i - 1], kwargsList[i - 1]))
  }

  /** Running more members does not change the argument tuples already recorded. */
  lemma {:induction false} RunMembersPrefix<V(!new)>(members: seq<Node>, argsList: seq<seq<RtArg<V>>>, kwargsList: seq<seq<RtArg<V>>>,
                                                  call: (Node, seq<RtArg<V>>, seq<RtArg<V>>) -> V, n: nat, m: nat)
    requires m <= n <= |members| && n <= |argsList| && n <= |kwargsList|
    ensures RunMembers(members, argsList, kwargsList, call, n).1[..m] == RunMembers(members, argsList, kwargsList, call, m).1
  {
    if m < n {
      RunMembersPrefix(members, argsList, kwargsList, call, n - 1, m);
      var prev := RunMembers(members, argsList, kwargsList, call, n - 1).1;
      assert RunMembers(members, argsList, kwargsList, call, n).1[..m] == prev[..m];
    } else {
      assert RunMembers(members, argsList, kwargsList, call, n).1[..m] == RunMembers(members, argsList, kwargsList, call, n).1;
    }
  }

  /**
   * Each member receives its own argument tuple with every 'placeholder'
   * replaced by the previous member's result (None for the first member),
   * and the fused result is the last member's result.
   */
  lemma RunMembersChains<V(!new)>(members: seq<Node>, argsList: seq<seq<RtArg<V>>>, kwargsList: seq<seq<RtArg<V>>>,
                                 call: (Node, seq<RtArg<V>>, seq<RtArg<V>>) -> V, n: nat)
    requires n <= |members| && n <= |argsList| && n <= |kwargsList|
    ensures var r := RunMembers(members, argsList, kwargsList, call, n);
      (forall i :: 0 <= i < n ==> r.1[i] == Substitute(argsList[i], Fed(members, r.1, kwargsList, call, i))) &&
      (n == 0 ==> r.0 == NoneValue) &&
      (n > 0 ==> r.0 == Value(call(members[n - 1], r.1[n - 1], kwargsList[n - 1])))
  {
    var r := RunMembers(members, argsList, kwargsList, call, n);
    if n > 0 {
      var prev := RunMembers(members, argsList, kwargsList, call, n - 1);
      assert r.1 == prev.1 + [Substitute(argsList[n - 1], prev.0)];
      assert r.1[n - 1] == Substitute(argsList[n - 1], prev.0);
    }
    forall i | 0 <= i < n
      ensures r.1[i] == Substitute(argsList[i], Fed(members, r.1, kwargsList, call, i))
    {
      RunMembersPrefix(members, argsList, kwargsList, call, n, i + 1);
      var upto := RunMembers(members, argsList, kwargsList, call, i + 1);
      assert r.1[i] == r.1[..i + 1][i] == upto.1[i];
      if i > 0 {
        RunMembersPrefix(members, argsList, kwargsList, call, i + 1, i);
        var before := RunMembers(members, argsList, kwargsList, call, i);
        assert r.1[i - 1] == r.1[..i + 1][i - 1] == upto.1[i - 1] == upto.1[..i][i - 1] == before.1[i - 1];
      }
    }
  }

  /** A module made of fused call_function nodes; `args` records the argument tuples of the last forward. */
  class FusedOperations<V(!new)> {
    const members: seq<Node>
    var args: Option<seq<seq<RtArg<V>>>>

    constructor(members: seq<Node>, args: Option<seq<seq<RtArg<V>>>>)
      ensures this.members == members && this.args == args
    {
      this.members := members;
      this.args := args;
    }

    /** forward: run the members in order, feeding each one's result to the next through the placeholders. */
    method Forward(argsList: seq<seq<RtArg<V>>>, kwargsList: seq<seq<RtArg<V>>>,
                   call: (Node, seq<RtArg<V>>, seq<RtArg<V>>) -> V) returns (r: Result<RtArg<V>, ForwardError>)
      modifies this
      ensures var k := FirstFailure(members, |argsList|, |kwargsList|);
        args == Some(RunMembers(members, argsList, kwargsList, call, k).1) &&
        (k == |members| ==> r == Ok(RunMembers(members, argsList, kwargsList, call, k).0)) &&
        (k < |members| ==> r.Err? && r.error.index == k) &&
        (k < |members| && members[k].op != CallFunction ==> r == Err(NotCallFunction(k))) &&
        (k < |members| && members[k].op == CallFunction && k >= |argsList| ==> r == Err(ArgsIndexError(k))) &&
        (k < |members| && members[k].op == CallFunction && k < |argsList| ==> r == Err(KwargsIndexError(k)))
    {
      ghost var k := FirstFailure(members, |argsList|, |kwargsList|);
      var result: RtArg<V> := NoneValue;
      var acc: seq<seq<RtArg<V>>> := [];
      args := Some(acc);
      var i := 0;
      while i < |members|
        invariant 0 <= i <= k
        invariant (result, acc) == RunMembers(members, argsList, kwargsList, call, i)
        invariant args == Some(acc)
      {
        if members[i].op != CallFunction {
          return Err(NotCallFunction(i));
        }
        if i >= |argsList| {
          return Err(ArgsIndexError(i));
        }
        var bound := Substitute(argsList[i], result);
        if i >= |kwargsList| {
          return Err(KwargsIndexError(i));
        }
        result := Value(call(members[i], bound, kwargsList[i]));
        acc := acc + [bound];
        args := Some(acc);
        i := i + 1;
      }
      r := Ok(result);
    }
  }

  /** The pass over a GraphModule: its graph, its table of named modules, and the operation tables. */
  class ShapeProp {
    var nodes: map<nat, Node>
    var order: seq<nat>
    var nextId: nat
    var modules: map<string, Module>
    var fusedCount: nat
    const tables: Tables

    function State(): GraphState
      reads this
    {
      GraphState(nodes, order, nextId, modules, fusedCount)
    }

    constructor(g: GraphState, tables: Tables)
      ensures State() == g && this.tables == tables
    {
      nodes := g.nodes;
      order := g.order;
      nextId := g.nextId;
      modules := g.modules;
      fusedCount := g.fusedCount;
      this.tables := tables;
    }

    /** The inner while loop of transform: the chain that starts at `id`, with new_args built alongside. */
    method GrowChainLoop(id: nat, visited: set<nat>) returns (chain: seq<nat>, newArgs: seq<seq<Arg>>)
      requires id in nodes && id in order
      ensures chain == ChainFrom(nodes, order, visited, tables, id)
      ensures newArgs == BoundArgs(nodes, chain)
    {
      var gv := InTable(nodes[id].target, tables.gemm) || InTable(nodes[id].target, tables.vector);
      chain := [id];
      newArgs := [nodes[id].args];
      GrowingStart(nodes, order, visited, tables, id);
      var cur := id;
      var users := Users(nodes, order, cur);
      while |users| == 1
        invariant Growing(nodes, order, visited, tables, id, chain, gv) && cur == chain[|chain| - 1]
        invariant newArgs == BoundArgs(nodes, chain)
        invariant users == Users(nodes, order, cur)
        decreases (set x | x in order) - (set x | x in chain)
      {
        var user := users[0];
        assert user in users;
        if !Joins(nodes[user], cur, gv, visited, tables) || user in chain {
          GrowingDone(nodes, order, visited, tables, id, chain, gv);
          break;
        }
        GrowingStep(nodes, order, visited, tables, id, chain, gv, user);
        newArgs := newArgs + [Placeheld(nodes[user].args, cur)];
        chain := chain + [user];
        cur := user;
        users := Users(nodes, order, cur);
      }
      if |users| != 1 {
        GrowingDone(nodes, order, visited, tables, id, chain, gv);
      }
    }

    /** Overwrite every field with the given graph state. */
    method SetState(st: GraphState)
      modifies this
      ensures State() == st
    {
      nodes, order, nextId, modules, fusedCount := st.nodes, st.order, st.nextId, st.modules, st.fusedCount;
    }

    /** The fusion at the end of an outer iteration: register the module, insert the node, redirect, erase. */
    method FuseChain(chain: seq<nat>, newArgs: seq<seq<Arg>>) returns (failed: Option<FuseError>)
      requires |chain| >= 2 && chain[0] in order
      requires forall i :: 0 <= i < |chain| ==> chain[i] in nodes
      requires newArgs == BoundArgs(nodes, chain)
      modifies this
      ensures failed.Some? <==> Fuse(old(State()), chain).Err?
      ensures failed.Some? ==> State() == old(State()) && failed == Some(Fuse(old(State()), chain).error)
      ensures failed.None? ==> State() == Fuse(old(State()), chain).value
    {
      ghost var st := State();
      var name := AttrNames.NewAttrName(FusedPrefix, modules.Keys);
      var f := CallFused(name, newArgs, MemberKwargs(nodes, chain));
      assert f == FusedNode(nodes, chain, name);
      FuseFails(st, chain);
      if UsedMember(Redirect(f, chain[|chain| - 1], nextId), chain).Some? {
        return Some(ErasedNodeHasUsers);
      }
      var modules' := modules[name := FusedModule(MemberNodes(nodes, chain))];
      var nodes' := NewNodes(nodes, chain, nextId, f);
      var order' := NewOrder(order, chain, nextId);
      var st' := GraphState(nodes', order', nextId + 1, modules', fusedCount + 1);
      assert st' == Fuse(st, chain).value by {
        FuseValue(st, chain);
      }
      SetState(st');
      failed := None;
    }

    /** One iteration of the outer loop of transform. */
    method VisitNode(id: nat, visited: set<nat>) returns (visited': set<nat>, failed: Option<FuseError>)
      requires WellFormed(State())
      modifies this
      ensures Pass(State(), visited', failed) == Visit(old(State()), visited, id, tables)
    {
      visited', failed := visited, None;
      if id !in nodes {
        return;
      }
      if nodes[id].op != CallFunction {
        visited' := visited + {id};
        return;
      }
      var chain, newArgs := GrowChainLoop(id, visited);
      if |chain| == 1 {
        visited' := visited + {id};
        return;
      }
      var newId := nextId;
      failed := FuseChain(chain, newArgs);
      if failed.None? {
        visited' := visited + {newId};
      }
    }

    /**
     * transform: visit the nodes of the graph in order, fusing each chain
     * that starts at a call_function node. The graph and the module table
     * end as the pass over the initial node list leaves them; the method
     * stops at the first fusion whose erase fails.
     */
    method Transform() returns (failed: Option<FuseError>)
      requires WellFormed(State())
      modifies this
      ensures State() == RunPass(old(State()), old(order), tables).st
      ensures failed == RunPass(old(State()), old(order), tables).failed
    {
      ghost var st0 := State();
      var ids := order;
      var visited: set<nat> := {};
      var i := 0;
      while i < |ids|
        invariant 0 <= i <= |ids| && WellFormed(State())
        invariant RunPass(st0, ids[..i], tables) == Pass(State(), visited, None)
      {
        RunPassStep(st0, ids, i, tables);
        visited, failed := VisitNode(ids[i], visited);
        if failed.Some? {
          FailureStops(st0, ids, i + 1, tables);
          return;
        }
        i := i + 1;
      }
      assert ids[..i] == ids;
      failed := None;
    }

    /** gen_code: walk the node list and collect the parameters map_operation returns. */
    method GenCode<P>(mapOp: FusedOp -> Option<P>) returns (r: Result<seq<P>, GenError>)
      requires Listed(State())
      ensures r == Emit(State(), order, mapOp)
    {
      var params: seq<P> := [];
      var i := 0;
      while i < |order|
        invariant 0 <= i <= |order|
        invariant Emit(State(), order[..i], mapOp) == Ok(params)
      {
        assert order[..i + 1][..i] == order[..i];
        var op := OpOf(State(), order[i]);
        if op.Err? {
          EmitStaysFailed(State(), order, i + 1, mapOp);
          return Err(op.error);
        }
        if op.value.Some? {
          var param := mapOp(op.value.value);
          if param.Some? {
            params := params + [param.value];
          }
        }
        i := i + 1;
      }
      assert order[..i] == order;
      r := Ok(params);
    }
  }
}

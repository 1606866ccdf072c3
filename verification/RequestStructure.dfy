/**
 The structure check on request bodies: a depth-first walk over an object graph that may share objects and
 contain cycles, with one key counter and one set of visited objects.
 */
module RequestStructure {
  import opened Wrappers

  datatype Value = Primitive | Ref(id: nat)

  datatype Field = Field(key: string, value: Value)

  type Graph = map<nat, seq<Field>>

  datatype Limits = Limits(maxDepth: nat, maxKeys: nat)

  datatype Error = TOO_DEEP | TOO_LARGE | KEY_FORBIDDEN

  datatype Outcome = Outcome(error: Option<Error>, keys: nat, seen: set<nat>)

  predicate Forbidden(key: string) { key == "__proto__" || key == "prototype" || key == "constructor" }

  predicate Known(g: Graph, v: Value) { v.Ref? ==> v.id in g }

  predicate WellFormed(g: Graph) { forall a | a in g :: forall f | f in g[a] :: Known(g, f.value) }

  // ----- The walk as a function of the counter and the visited set -----

  function Inspect(g: Graph, limits: Limits, v: Value, depth: nat, keys: nat, seen: set<nat>): (r: Outcome)
    requires WellFormed(g) && Known(g, v) && seen <= g.Keys
    ensures seen <= r.seen <= g.Keys
    decreases g.Keys - seen, 0
  {
    if v.Primitive? || v.id in seen then Outcome(None, keys, seen)
    else if depth >= limits.maxDepth then Outcome(Some(TOO_DEEP), keys, seen + {v.id})
    else InspectFields(g, limits, v.id, 0, depth + 1, keys, seen + {v.id})
  }

  /** The fields of object `a` from the `k`-th on. */
  function InspectFields(g: Graph, limits: Limits, a: nat, k: nat, depth: nat, keys: nat, seen: set<nat>): (r: Outcome)
    requires WellFormed(g) && a in g && k <= |g[a]| && seen <= g.Keys
    ensures seen <= r.seen <= g.Keys
    decreases g.Keys - seen, 1 + |g[a]| - k
  {
    if k == |g[a]| then Outcome(None, keys, seen)
    else if keys + 1 > limits.maxKeys then Outcome(Some(TOO_LARGE), keys + 1, seen)
    else if Forbidden(g[a][k].key) then Outcome(Some(KEY_FORBIDDEN), keys + 1, seen)
    else
      var r := Inspect(g, limits, g[a][k].value, depth, keys + 1, seen);
      if r.error.Some? then r else InspectFields(g, limits, a, k + 1, depth, r.keys, r.seen)
  }

  /** The counter and the visited set of one walk. */
  class Walk {
    var keys: nat
    var seen: set<nat>

    constructor ()
      ensures keys == 0 && seen == {}
    {
      keys, seen := 0, {};
    }

    method InspectValue(g: Graph, limits: Limits, v: Value, depth: nat) returns (error: Option<Error>)
      requires WellFormed(g) && Known(g, v) && seen <= g.Keys
      modifies this
      ensures Outcome(error, keys, seen) == Inspect(g, limits, v, depth, old(keys), old(seen))
      decreases g.Keys - seen
    {
      if v.Primitive? { return None; }
      if v.id in seen { return None; }
      seen := seen + {v.id};
      if depth >= limits.maxDepth { return Some(TOO_DEEP); }
      var fields := g[v.id];
      ghost var whole := InspectFields(g, limits, v.id, 0, depth + 1, keys, seen);
      for k := 0 to |fields|
        invariant old(seen) < seen <= g.Keys && v.id in seen
        invariant InspectFields(g, limits, v.id, k, depth + 1, keys, seen) == whole
      {
        keys := keys + 1;
        if keys > limits.maxKeys { return Some(TOO_LARGE); }
        if Forbidden(fields[k].key) { return Some(KEY_FORBIDDEN); }
        error := InspectValue(g, limits, fields[k].value, depth + 1);
        if error.Some? { return; }
      }
      return None;
    }
  }

  /** The parameters, the query and the body are walked one by one, each with its own counter and visited set. */
  method RequestSecurity(g: Graph, limits: Limits, sources: seq<Value>) returns (error: Option<Error>)
    requires WellFormed(g) && forall v | v in sources :: Known(g, v)
    ensures error.None? <==> forall v | v in sources :: Inspect(g, limits, v, 0, 0, {}).error.None?
  {
    for k := 0 to |sources|
      invariant forall j | 0 <= j < k :: Inspect(g, limits, sources[j], 0, 0, {}).error.None?
    {
      var walk := new Walk();
      error := walk.InspectValue(g, limits, sources[k], 0);
      if error.Some? {
        assert sources[k] in sources;
        return;
      }
    }
    return None;
  }

  // ----- Paths -----

  /** Taking the fields at positions `path` in turn leads from `v` to object `x`. */
  predicate Leads(g: Graph, v: Value, path: seq<nat>, x: nat)
    decreases |path|
  {
    if path == [] then v == Ref(x)
    else v.Ref? && v.id in g && path[0] < |g[v.id]| && Leads(g, g[v.id][path[0]].value, path[1..], x)
  }

  ghost predicate Reach(g: Graph, v: Value, x: nat) { exists path :: Leads(g, v, path, x) }

  /** Some path of fewer than `n` links leads to `x`. */
  ghost predicate Near(g: Graph, v: Value, x: nat, n: int) { exists path :: Leads(g, v, path, x) && |path| < n }

  /** Some path has `n` links or more. */
  ghost predicate Deep(g: Graph, v: Value, n: int) { exists path, x :: Leads(g, v, path, x) && |path| >= n }

  /** The path leads from `v` to `x` and meets no object twice and none of `avoid`. */
  predicate LeadsSimply(g: Graph, v: Value, path: seq<nat>, x: nat, avoid: set<nat>)
    decreases |path|
  {
    && v.Ref? && v.id !in avoid
    && if path == [] then v == Ref(x)
       else v.id in g && path[0] < |g[v.id]|
            && LeadsSimply(g, g[v.id][path[0]].value, path[1..], x, avoid + {v.id})
  }

  /** Some path without repeated objects, and clear of `avoid`, has `n` links or more. */
  ghost predicate SimplyDeep(g: Graph, v: Value, n: int, avoid: set<nat>) {
    exists path, x :: LeadsSimply(g, v, path, x, avoid) && |path| >= n
  }

  /** Every object is reached along one path only. */
  ghost predicate TreeShaped(g: Graph, v: Value) {
    forall p, q, x :: Leads(g, v, p, x) && Leads(g, v, q, x) ==> p == q
  }

  ghost function Reachable(g: Graph, v: Value): set<nat> { set x | x in g && Reach(g, v, x) }

  predicate HasForbidden(g: Graph, x: nat)
    requires x in g
  {
    exists f | f in g[x] :: Forbidden(f.key)
  }

  predicate ChildrenIn(g: Graph, x: nat, seen: set<nat>)
    requires x in g
  {
    forall f | f in g[x] :: f.value.Ref? ==> f.value.id in seen
  }

  lemma {:induction false} OneLinkMore(g: Graph, a: nat, k: nat, path: seq<nat>, x: nat)
    requires a in g && k < |g[a]| && Leads(g, g[a][k].value, path, x)
    ensures Leads(g, Ref(a), [k] + path, x)
  {
    assert ([k] + path)[1..] == path;
  }

  lemma {:induction false} ReachLifts(g: Graph, a: nat, k: nat, x: nat)
    requires a in g && k < |g[a]| && Reach(g, g[a][k].value, x)
    ensures Reach(g, Ref(a), x)
  {
    var path :| Leads(g, g[a][k].value, path, x);
    OneLinkMore(g, a, k, path, x);
  }

  lemma {:induction false} NearLifts(g: Graph, a: nat, k: nat, x: nat, n: int)
    requires a in g && k < |g[a]| && Near(g, g[a][k].value, x, n)
    ensures Near(g, Ref(a), x, n + 1)
  {
    var path :| Leads(g, g[a][k].value, path, x) && |path| < n;
    OneLinkMore(g, a, k, path, x);
  }

  lemma {:induction false} SimplyLeads(g: Graph, v: Value, path: seq<nat>, x: nat, avoid: set<nat>)
    requires LeadsSimply(g, v, path, x, avoid)
    ensures Leads(g, v, path, x)
    decreases |path|
  {
    if path != [] { SimplyLeads(g, g[v.id][path[0]].value, path[1..], x, avoid + {v.id}); }
  }

  /** Where two graphs agree outside `avoid`, a path that is clear of it stays, also when it need avoid only `less`. */
  lemma {:induction false} SimplePathStays(
    g: Graph, h: Graph, v: Value, path: seq<nat>, x: nat, avoid: set<nat>, less: set<nat>)
    requires LeadsSimply(g, v, path, x, avoid) && less <= avoid
    requires forall a | a in g && a !in avoid :: a in h && h[a] == g[a]
    ensures LeadsSimply(h, v, path, x, less)
    decreases |path|
  {
    if path != [] { SimplePathStays(g, h, g[v.id][path[0]].value, path[1..], x, avoid + {v.id}, less + {v.id}); }
  }

  lemma {:induction false} SimplyDeepLifts(g: Graph, a: nat, k: nat, n: int, start: set<nat>, seen: set<nat>)
    requires a in g && k < |g[a]| && a !in start && start + {a} <= seen && SimplyDeep(g, g[a][k].value, n, seen)
    ensures SimplyDeep(g, Ref(a), n + 1, start)
  {
    var path, x :| LeadsSimply(g, g[a][k].value, path, x, seen) && |path| >= n;
    SimplePathStays(g, g, g[a][k].value, path, x, seen, start + {a});
    assert ([k] + path)[1..] == path;
    assert LeadsSimply(g, Ref(a), [k] + path, x, start);
  }

  lemma {:induction false} EndsInGraph(g: Graph, v: Value, path: seq<nat>, x: nat)
    requires WellFormed(g) && Known(g, v) && Leads(g, v, path, x)
    ensures x in g
    decreases |path|
  {
    if path != [] {
      assert g[v.id][path[0]] in g[v.id];
      EndsInGraph(g, g[v.id][path[0]].value, path[1..], x);
    }
  }

  // ----- Counting keys -----

  ghost function KeySum(g: Graph, s: set<nat>): nat
    requires s <= g.Keys
  {
    if s == {} then 0
    else
      var x :| x in s;
      |g[x]| + KeySum(g, s - {x})
  }

  lemma {:induction false} KeySumTake(g: Graph, s: set<nat>, x: nat)
    requires s <= g.Keys && x in s
    ensures KeySum(g, s) == |g[x]| + KeySum(g, s - {x})
  {
    var y :| y in s && KeySum(g, s) == |g[y]| + KeySum(g, s - {y});
    if y != x {
      KeySumTake(g, s - {y}, x);
      KeySumTake(g, s - {x}, y);
      assert s - {y} - {x} == s - {x} - {y};
    }
  }

  lemma {:induction false} KeySumUnion(g: Graph, s: set<nat>, t: set<nat>)
    requires s <= g.Keys && t <= g.Keys && s !! t
    ensures KeySum(g, s + t) == KeySum(g, s) + KeySum(g, t)
  {
    if s == {} {
      assert s + t == t;
    } else {
      var x :| x in s;
      KeySumTake(g, s + t, x);
      KeySumTake(g, s, x);
      assert s + t - {x} == (s - {x}) + t;
      KeySumUnion(g, s - {x}, t);
    }
  }

  lemma {:induction false} KeySumMonotone(g: Graph, s: set<nat>, t: set<nat>)
    requires s <= t <= g.Keys
    ensures KeySum(g, s) <= KeySum(g, t)
  {
    KeySumUnion(g, s, t - s);
    assert s + (t - s) == t;
  }

  // ----- What a walk establishes -----

  /** Of the objects that a walk from `v` visited anew. */
  ghost predicate Visits(g: Graph, v: Value, before: set<nat>, r: Outcome)
    requires before <= r.seen <= g.Keys
  {
    forall x | x in r.seen - before :: Reach(g, v, x)
  }

  ghost predicate Clears(g: Graph, x: nat, seen: set<nat>)
    requires x in g
  {
    ChildrenIn(g, x, seen) && !HasForbidden(g, x)
  }

  /** The reason of a refusal is real: a long path of new objects, too many counted keys, or a forbidden key on a
   visited object. */
  ghost predicate Justified(g: Graph, limits: Limits, v: Value, room: int, before: set<nat>, r: Outcome)
    requires before <= r.seen <= g.Keys && r.error.Some?
  {
    match r.error.value
    case TOO_DEEP => SimplyDeep(g, v, room, before)
    case TOO_LARGE => r.keys > limits.maxKeys
    case KEY_FORBIDDEN => exists x | x in r.seen :: x !in before && HasForbidden(g, x)
  }

  lemma {:induction false} InspectVisits(g: Graph, limits: Limits, v: Value, depth: nat, keys: nat, seen: set<nat>)
    requires WellFormed(g) && Known(g, v) && seen <= g.Keys
    ensures var r := Inspect(g, limits, v, depth, keys, seen);
      Visits(g, v, seen, r) && keys <= r.keys <= keys + KeySum(g, r.seen - seen)
    decreases g.Keys - seen, 0
  {
    var r := Inspect(g, limits, v, depth, keys, seen);
    if v.Ref? && v.id !in seen {
      assert Leads(g, v, [], v.id);
      KeySumTake(g, r.seen - seen, v.id);
      assert r.seen - seen - {v.id} == r.seen - (seen + {v.id});
      if depth < limits.maxDepth {
        InspectFieldsVisits(g, limits, v.id, 0, depth + 1, keys, seen + {v.id});
      }
    }
  }

  lemma {:induction false} InspectFieldsVisits(g: Graph, limits: Limits, a: nat, k: nat, depth: nat, keys: nat,
      seen: set<nat>)
    requires WellFormed(g) && a in g && k <= |g[a]| && seen <= g.Keys
    ensures var r := InspectFields(g, limits, a, k, depth, keys, seen);
      Visits(g, Ref(a), seen, r) && keys <= r.keys <= keys + |g[a]| - k + KeySum(g, r.seen - seen)
    decreases g.Keys - seen, 1 + |g[a]| - k
  {
    if k < |g[a]| && keys + 1 <= limits.maxKeys && !Forbidden(g[a][k].key) {
      var child := g[a][k].value;
      var r := Inspect(g, limits, child, depth, keys + 1, seen);
      InspectVisits(g, limits, child, depth, keys + 1, seen);
      forall x | x in r.seen - seen
        ensures Reach(g, Ref(a), x)
      {
        ReachLifts(g, a, k, x);
      }
      if r.error.None? {
        var t := InspectFields(g, limits, a, k + 1, depth, r.keys, r.seen);
        InspectFieldsVisits(g, limits, a, k + 1, depth, r.keys, r.seen);
        KeySumUnion(g, r.seen - seen, t.seen - r.seen);
        assert (r.seen - seen) + (t.seen - r.seen) == t.seen - seen;
      }
    }
  }

  /** An accepting walk counts the keys of every object it visits anew, once each, and stays within the limit. */
  lemma {:induction false} InspectCounts(g: Graph, limits: Limits, v: Value, depth: nat, keys: nat, seen: set<nat>)
    requires WellFormed(g) && Known(g, v) && seen <= g.Keys
    requires Inspect(g, limits, v, depth, keys, seen).error.None?
    ensures var r := Inspect(g, limits, v, depth, keys, seen);
      r.keys == keys + KeySum(g, r.seen - seen) && (keys < r.keys ==> r.keys <= limits.maxKeys)
    decreases g.Keys - seen, 0
  {
    var r := Inspect(g, limits, v, depth, keys, seen);
    if v.Ref? && v.id !in seen {
      KeySumTake(g, r.seen - seen, v.id);
      assert r.seen - seen - {v.id} == r.seen - (seen + {v.id});
      InspectFieldsCounts(g, limits, v.id, 0, depth + 1, keys, seen + {v.id});
    } else {
      assert r.seen - seen == {};
    }
  }

  lemma {:induction false} InspectFieldsCounts(g: Graph, limits: Limits, a: nat, k: nat, depth: nat, keys: nat,
      seen: set<nat>)
    requires WellFormed(g) && a in g && k <= |g[a]| && seen <= g.Keys
    requires InspectFields(g, limits, a, k, depth, keys, seen).error.None?
    ensures var r := InspectFields(g, limits, a, k, depth, keys, seen);
      r.keys == keys + |g[a]| - k + KeySum(g, r.seen - seen) && (keys < r.keys ==> r.keys <= limits.maxKeys)
    decreases g.Keys - seen, 1 + |g[a]| - k
  {
    if k < |g[a]| {
      var r := Inspect(g, limits, g[a][k].value, depth, keys + 1, seen);
      var t := InspectFields(g, limits, a, k + 1, depth, r.keys, r.seen);
      InspectCounts(g, limits, g[a][k].value, depth, keys + 1, seen);
      InspectFieldsCounts(g, limits, a, k + 1, depth, r.keys, r.seen);
      KeySumUnion(g, r.seen - seen, t.seen - r.seen);
      assert (r.seen - seen) + (t.seen - r.seen) == t.seen - seen;
    } else {
      assert InspectFields(g, limits, a, k, depth, keys, seen).seen - seen == {};
    }
  }

  /** An accepting walk leaves no visited object with a forbidden key or an unvisited child. */
  lemma {:induction false} InspectClears(g: Graph, limits: Limits, v: Value, depth: nat, keys: nat, seen: set<nat>)
    requires WellFormed(g) && Known(g, v) && seen <= g.Keys
    requires Inspect(g, limits, v, depth, keys, seen).error.None?
    ensures var r := Inspect(g, limits, v, depth, keys, seen);
      (v.Ref? ==> v.id in r.seen) && forall x | x in r.seen - seen :: Clears(g, x, r.seen)
    decreases g.Keys - seen, 0
  {
    if v.Ref? && v.id !in seen {
      InspectFieldsClears(g, limits, v.id, 0, depth + 1, keys, seen + {v.id});
    }
  }

  lemma {:induction false} InspectFieldsClears(g: Graph, limits: Limits, a: nat, k: nat, depth: nat, keys: nat,
      seen: set<nat>)
    requires WellFormed(g) && a in g && k <= |g[a]| && seen <= g.Keys
    requires InspectFields(g, limits, a, k, depth, keys, seen).error.None?
    ensures var r := InspectFields(g, limits, a, k, depth, keys, seen);
      && (forall j | k <= j < |g[a]| :: !Forbidden(g[a][j].key) && (g[a][j].value.Ref? ==> g[a][j].value.id in r.seen))
      && (forall x | x in r.seen - seen :: Clears(g, x, r.seen))
    decreases g.Keys - seen, 1 + |g[a]| - k
  {
    if k < |g[a]| {
      var r := Inspect(g, limits, g[a][k].value, depth, keys + 1, seen);
      var t := InspectFields(g, limits, a, k + 1, depth, r.keys, r.seen);
      InspectClears(g, limits, g[a][k].value, depth, keys + 1, seen);
      InspectFieldsClears(g, limits, a, k + 1, depth, r.keys, r.seen);
      forall x | x in r.seen - seen
        ensures Clears(g, x, t.seen)
      {
        assert Clears(g, x, r.seen);
      }
    }
  }

  ghost predicate StaysNear(g: Graph, v: Value, before: set<nat>, r: Outcome, room: int) {
    forall x | x in r.seen && x !in before :: Near(g, v, x, room)
  }

  /** An accepting walk reaches every object it visits anew along fewer links than the room left under the depth
   limit. */
  lemma {:induction false} InspectStaysNear(
    g: Graph, limits: Limits, v: Value, depth: nat, keys: nat, seen: set<nat>, room: int)
    requires WellFormed(g) && Known(g, v) && seen <= g.Keys && room == limits.maxDepth - depth
    requires Inspect(g, limits, v, depth, keys, seen).error.None?
    ensures StaysNear(g, v, seen, Inspect(g, limits, v, depth, keys, seen), room)
    decreases g.Keys - seen, 0
  {
    if v.Ref? && v.id !in seen {
      var r := InspectFields(g, limits, v.id, 0, depth + 1, keys, seen + {v.id});
      InspectFieldsStaysNear(g, limits, v.id, 0, depth + 1, keys, seen + {v.id}, room - 1);
      forall x | x in r.seen && x !in seen
        ensures Near(g, v, x, room)
      {
        if x == v.id {
          assert Leads(g, v, [], x);
        } else {
          assert x !in seen + {v.id};
        }
      }
    }
  }

  lemma {:induction false} InspectFieldsStaysNear(
    g: Graph, limits: Limits, a: nat, k: nat, depth: nat, keys: nat, seen: set<nat>, room: int)
    requires WellFormed(g) && a in g && k <= |g[a]| && seen <= g.Keys && room == limits.maxDepth - depth
    requires InspectFields(g, limits, a, k, depth, keys, seen).error.None?
    ensures StaysNear(g, Ref(a), seen, InspectFields(g, limits, a, k, depth, keys, seen), room + 1)
    decreases g.Keys - seen, 1 + |g[a]| - k
  {
    if k < |g[a]| {
      var r := Inspect(g, limits, g[a][k].value, depth, keys + 1, seen);
      InspectStaysNear(g, limits, g[a][k].value, depth, keys + 1, seen, room);
      var t := InspectFields(g, limits, a, k + 1, depth, r.keys, r.seen);
      InspectFieldsStaysNear(g, limits, a, k + 1, depth, r.keys, r.seen, room);
      forall x | x in t.seen && x !in seen
        ensures Near(g, Ref(a), x, room + 1)
      {
        if x in r.seen {
          NearLifts(g, a, k, x, room);
        }
      }
    }
  }

  lemma {:induction false} InspectJustifies(g: Graph, limits: Limits, v: Value, depth: nat, keys: nat, seen: set<nat>)
    requires WellFormed(g) && Known(g, v) && seen <= g.Keys
    requires Inspect(g, limits, v, depth, keys, seen).error.Some?
    ensures Justified(g, limits, v, limits.maxDepth - depth, seen, Inspect(g, limits, v, depth, keys, seen))
    decreases g.Keys - seen, 0
  {
    assert LeadsSimply(g, v, [], v.id, seen);
    if depth < limits.maxDepth {
      InspectFieldsJustifies(g, limits, v.id, 0, depth + 1, keys, seen, seen + {v.id});
    }
  }

  lemma {:induction false} InspectFieldsJustifies(
    g: Graph, limits: Limits, a: nat, k: nat, depth: nat, keys: nat, start: set<nat>, seen: set<nat>)
    requires WellFormed(g) && a in g && k <= |g[a]| && start <= seen <= g.Keys && a in seen && a !in start
    requires InspectFields(g, limits, a, k, depth, keys, seen).error.Some?
    ensures Justified(g, limits, Ref(a), limits.maxDepth - depth + 1, start,
            InspectFields(g, limits, a, k, depth, keys, seen))
    decreases g.Keys - seen, 1 + |g[a]| - k
  {
    if keys + 1 <= limits.maxKeys {
      if Forbidden(g[a][k].key) {
        assert HasForbidden(g, a);
      } else {
        var child := g[a][k].value;
        var r := Inspect(g, limits, child, depth, keys + 1, seen);
        if r.error.Some? {
          InspectJustifies(g, limits, child, depth, keys + 1, seen);
          if r.error.value == TOO_DEEP { SimplyDeepLifts(g, a, k, limits.maxDepth - depth, start, seen); }
        } else {
          InspectFieldsJustifies(g, limits, a, k + 1, depth, r.keys, start, r.seen);
        }
      }
    }
  }

  // ----- Whole walks -----

  function Verdict(g: Graph, limits: Limits, v: Value): Outcome
    requires WellFormed(g) && Known(g, v)
  {
    Inspect(g, limits, v, 0, 0, {})
  }

  lemma {:induction false} ClosedHoldsPaths(g: Graph, seen: set<nat>, v: Value, path: seq<nat>, x: nat)
    requires seen <= g.Keys && forall y | y in seen :: ChildrenIn(g, y, seen)
    requires (v.Ref? ==> v.id in seen) && Leads(g, v, path, x)
    ensures x in seen
    decreases |path|
  {
    if path != [] {
      assert g[v.id][path[0]] in g[v.id];
      ClosedHoldsPaths(g, seen, g[v.id][path[0]].value, path[1..], x);
    }
  }

  /** An accepted value, whatever its cycles and sharing: the walk visited exactly the reachable objects and counted the
   keys of each once; the count is within the limit, no key is forbidden, and every object has a short path. */
  lemma {:induction false} AcceptedVisitsAll(g: Graph, limits: Limits, v: Value)
    requires WellFormed(g) && Known(g, v) && Verdict(g, limits, v).error.None?
    ensures Verdict(g, limits, v).seen == Reachable(g, v)
    ensures Verdict(g, limits, v).keys == KeySum(g, Reachable(g, v)) <= limits.maxKeys
    ensures forall x | x in Reachable(g, v) :: !HasForbidden(g, x) && Near(g, v, x, limits.maxDepth)
  {
    var r := Verdict(g, limits, v);
    InspectCounts(g, limits, v, 0, 0, {});
    InspectClears(g, limits, v, 0, 0, {});
    InspectStaysNear(g, limits, v, 0, 0, {}, limits.maxDepth);
    InspectVisits(g, limits, v, 0, 0, {});
    assert r.seen - {} == r.seen;
    forall x | x in Reachable(g, v)
      ensures x in r.seen
    {
      var path :| Leads(g, v, path, x);
      forall y | y in r.seen
        ensures ChildrenIn(g, y, r.seen)
      {
        assert Clears(g, y, r.seen);
      }
      ClosedHoldsPaths(g, r.seen, v, path, x);
    }
    assert r.seen == Reachable(g, v);
    forall x | x in Reachable(g, v)
      ensures !HasForbidden(g, x) && Near(g, v, x, limits.maxDepth)
    {
      assert x in r.seen - {};
      assert Clears(g, x, r.seen);
      assert Near(g, v, x, limits.maxDepth);
    }
  }

  /** A refused value has a long path without repeated objects, too many keys, or a forbidden key. */
  lemma {:induction false} RefusedForCause(g: Graph, limits: Limits, v: Value)
    requires WellFormed(g) && Known(g, v) && Verdict(g, limits, v).error.Some?
    ensures match Verdict(g, limits, v).error.value
      case TOO_DEEP => SimplyDeep(g, v, limits.maxDepth, {})
      case TOO_LARGE => KeySum(g, Reachable(g, v)) > limits.maxKeys
      case KEY_FORBIDDEN => exists x | x in Reachable(g, v) :: HasForbidden(g, x)
  {
    var r := Verdict(g, limits, v);
    InspectJustifies(g, limits, v, 0, 0, {});
    InspectVisits(g, limits, v, 0, 0, {});
    assert r.seen - {} == r.seen;
    assert r.seen <= Reachable(g, v);
    KeySumMonotone(g, r.seen, Reachable(g, v));
  }

  /** On trees the walk accepts exactly the values within all three limits. */
  lemma {:induction false} TreeAcceptedIffWithinLimits(g: Graph, limits: Limits, v: Value)
    requires WellFormed(g) && Known(g, v) && TreeShaped(g, v)
    ensures Verdict(g, limits, v).error.None? <==>
      && !Deep(g, v, limits.maxDepth)
      && KeySum(g, Reachable(g, v)) <= limits.maxKeys
      && forall x | x in Reachable(g, v) :: !HasForbidden(g, x)
  {
    if Verdict(g, limits, v).error.None? {
      AcceptedVisitsAll(g, limits, v);
      forall path, x | Leads(g, v, path, x)
        ensures |path| < limits.maxDepth
      {
        EndsInGraph(g, v, path, x);
        assert Reach(g, v, x);
        assert Near(g, v, x, limits.maxDepth);
        var short :| Leads(g, v, short, x) && |short| < limits.maxDepth;
      }
    } else {
      RefusedForCause(g, limits, v);
      if SimplyDeep(g, v, limits.maxDepth, {}) {
        var path, x :| LeadsSimply(g, v, path, x, {}) && |path| >= limits.maxDepth;
        SimplyLeads(g, v, path, x, {});
      }
    }
  }

  // ----- The order of the keys -----

  /** The same objects, each with the same fields in any order. */
  predicate Reorders(g: Graph, h: Graph) {
    g.Keys == h.Keys && forall a | a in g :: multiset(h[a]) == multiset(g[a])
  }

  predicate Accepts(g: Graph, limits: Limits, v: Value) {
    WellFormed(g) && Known(g, v) && Verdict(g, limits, v).error.None?
  }

  lemma SameFields(g: Graph, h: Graph, a: nat)
    requires Reorders(g, h) && a in g
    ensures |h[a]| == |g[a]| && (forall f :: f in h[a] <==> f in g[a]) && HasForbidden(h, a) == HasForbidden(g, a)
  {
    assert forall f :: f in h[a] <==> f in multiset(h[a]);
    assert |multiset(h[a])| == |multiset(g[a])|;
  }

  lemma ReorderedIsWellFormed(g: Graph, h: Graph)
    requires WellFormed(g) && Reorders(g, h)
    ensures WellFormed(h)
  {
    forall a, f | a in h && f in h[a]
      ensures Known(h, f.value)
    {
      SameFields(g, h, a);
    }
  }

  /** The same objects are passed in any order of the keys. */
  lemma {:induction false} PathReorders(g: Graph, h: Graph, v: Value, path: seq<nat>, x: nat) returns (other: seq<nat>)
    requires Reorders(g, h) && Leads(g, v, path, x)
    ensures Leads(h, v, other, x)
    decreases |path|
  {
    other := [];
    if path != [] {
      SameFields(g, h, v.id);
      assert g[v.id][path[0]] in h[v.id];
      var k: nat :| k < |h[v.id]| && h[v.id][k] == g[v.id][path[0]];
      other := PathReorders(g, h, g[v.id][path[0]].value, path[1..], x);
      OneLinkMore(h, v.id, k, other, x);
      other := [k] + other;
    }
  }

  lemma {:induction false} SimplePathReorders(g: Graph, h: Graph, v: Value, path: seq<nat>, x: nat, avoid: set<nat>)
    returns (other: seq<nat>)
    requires Reorders(g, h) && LeadsSimply(g, v, path, x, avoid)
    ensures LeadsSimply(h, v, other, x, avoid) && |other| == |path|
    decreases |path|
  {
    other := [];
    if path != [] {
      SameFields(g, h, v.id);
      assert g[v.id][path[0]] in h[v.id];
      var k: nat :| k < |h[v.id]| && h[v.id][k] == g[v.id][path[0]];
      other := SimplePathReorders(g, h, g[v.id][path[0]].value, path[1..], x, avoid + {v.id});
      assert ([k] + other)[1..] == other;
      other := [k] + other;
    }
  }

  lemma ReachableReorders(g: Graph, h: Graph, v: Value)
    requires Reorders(g, h)
    ensures Reachable(h, v) == Reachable(g, v)
  {
    forall x | x in g
      ensures Reach(g, v, x) <==> Reach(h, v, x)
    {
      if Reach(g, v, x) {
        var path :| Leads(g, v, path, x);
        var other := PathReorders(g, h, v, path, x);
      }
      if Reach(h, v, x) {
        var path :| Leads(h, v, path, x);
        var other := PathReorders(h, g, v, path, x);
      }
    }
  }

  lemma {:induction false} KeySumReorders(g: Graph, h: Graph, s: set<nat>)
    requires Reorders(g, h) && s <= g.Keys
    ensures KeySum(h, s) == KeySum(g, s)
  {
    if s != {} {
      var x :| x in s;
      SameFields(g, h, x);
      KeySumTake(g, s, x);
      KeySumTake(h, s, x);
      KeySumReorders(g, h, s - {x});
    }
  }

  function Zeros(n: nat): seq<nat> { seq(n, _ => 0) }

  lemma MoveFront(s: seq<Field>, k: nat) returns (t: seq<Field>)
    requires k < |s|
    ensures multiset(t) == multiset(s) && |t| == |s| && t[0] == s[k]
  {
    t := [s[k]] + s[..k] + s[k + 1..];
    assert s == s[..k] + [s[k]] + s[k + 1..];
  }

  /** In some order of the keys a path without repeated objects takes the first field of every object on it. */
  lemma {:induction false} PathToTheFront(g: Graph, v: Value, path: seq<nat>, x: nat, avoid: set<nat>)
    returns (h: Graph)
    requires LeadsSimply(g, v, path, x, avoid)
    ensures Reorders(g, h) && LeadsSimply(h, v, Zeros(|path|), x, avoid)
    ensures forall a | a in g && a in avoid :: h[a] == g[a]
    decreases |path|
  {
    h := g;
    if path != [] {
      var a, child, rest := v.id, g[v.id][path[0]].value, avoid + {v.id};
      var r := PathToTheFront(g, child, path[1..], x, rest);
      var fields := MoveFront(g[a], path[0]);
      h := r[a := fields];
      SimplePathStays(r, h, child, Zeros(|path| - 1), x, rest, rest);
      assert Zeros(|path|)[1..] == Zeros(|path| - 1);
    }
  }

  /** A walk that meets a long path of new objects first is refused. */
  lemma {:induction false} FirstPathRefuses(
    g: Graph, limits: Limits, v: Value, depth: nat, keys: nat, seen: set<nat>, n: nat, x: nat)
    requires WellFormed(g) && Known(g, v) && seen <= g.Keys
    requires LeadsSimply(g, v, Zeros(n), x, seen) && depth + n >= limits.maxDepth
    ensures Inspect(g, limits, v, depth, keys, seen).error.Some?
    decreases n
  {
    if depth < limits.maxDepth {
      assert Zeros(n)[1..] == Zeros(n - 1);
      if keys + 1 <= limits.maxKeys && !Forbidden(g[v.id][0].key) {
        FirstPathRefuses(g, limits, g[v.id][0].value, depth + 1, keys + 1, seen + {v.id}, n - 1, x);
      }
    }
  }

  /** Whatever its cycles and sharing, a value is accepted in every order of its keys exactly when no path without
   repeated objects has as many links as the depth limit, the reachable objects hold no more keys than the key limit,
   and none of them has a forbidden key. */
  lemma {:induction false} AcceptedInEveryOrderIff(g: Graph, limits: Limits, v: Value)
    requires WellFormed(g) && Known(g, v)
    ensures (forall h :: Reorders(g, h) ==> Accepts(h, limits, v)) <==>
      && !SimplyDeep(g, v, limits.maxDepth, {})
      && KeySum(g, Reachable(g, v)) <= limits.maxKeys
      && forall x | x in Reachable(g, v) :: !HasForbidden(g, x)
  {
    if forall h :: Reorders(g, h) ==> Accepts(h, limits, v) {
      assert Reorders(g, g);
      AcceptedVisitsAll(g, limits, v);
      forall path, x | LeadsSimply(g, v, path, x, {})
        ensures |path| < limits.maxDepth
      {
        var h := PathToTheFront(g, v, path, x, {});
        assert Accepts(h, limits, v);
        if |path| >= limits.maxDepth { FirstPathRefuses(h, limits, v, 0, 0, {}, |path|, x); }
      }
    }
    if !SimplyDeep(g, v, limits.maxDepth, {}) && KeySum(g, Reachable(g, v)) <= limits.maxKeys
       && forall x | x in Reachable(g, v) :: !HasForbidden(g, x)
    {
      forall h | Reorders(g, h)
        ensures Accepts(h, limits, v)
      {
        FitsInAnyOrder(g, h, limits, v);
      }
    }
  }

  lemma {:induction false} FitsInAnyOrder(g: Graph, h: Graph, limits: Limits, v: Value)
    requires WellFormed(g) && Known(g, v) && Reorders(g, h) && !SimplyDeep(g, v, limits.maxDepth, {})
    requires KeySum(g, Reachable(g, v)) <= limits.maxKeys && forall x | x in Reachable(g, v) :: !HasForbidden(g, x)
    ensures Accepts(h, limits, v)
  {
    ReorderedIsWellFormed(g, h);
    ReachableReorders(g, h, v);
    KeySumReorders(g, h, Reachable(g, v));
    forall x | x in Reachable(h, v)
      ensures !HasForbidden(h, x)
    {
      SameFields(g, h, x);
    }
    if Verdict(h, limits, v).error.Some? {
      RefusedForCause(h, limits, v);
      var path, x :| LeadsSimply(h, v, path, x, {}) && |path| >= limits.maxDepth;
      var other := SimplePathReorders(h, g, v, path, x, {});
    }
  }

  /** A path without repeated objects has fewer links than there are objects: a value of at most as many objects as the
   depth limit is never too deep, whatever its cycles. */
  lemma {:induction false} SimplePathsAreShort(g: Graph, v: Value, path: seq<nat>, x: nat, avoid: set<nat>)
    requires WellFormed(g) && Known(g, v) && avoid <= g.Keys && LeadsSimply(g, v, path, x, avoid)
    ensures |path| < |g.Keys - avoid|
    decreases |path|
  {
    var rest := g.Keys - (avoid + {v.id});
    assert g.Keys - avoid == rest + {v.id};
    if path != [] {
      assert g[v.id][path[0]] in g[v.id];
      SimplePathsAreShort(g, g[v.id][path[0]].value, path[1..], x, avoid + {v.id});
    }
  }

  /** With a shared object the depth limit depends on the order of the keys: the same three objects are accepted when
   the shared one is met first near the root, and refused when it is met first far from it. */
  lemma {:induction false} SharingMakesDepthOrderDependent(limits: Limits, g: Graph, h: Graph)
    requires limits.maxDepth == 2 && limits.maxKeys >= 3
    requires g == map[0 := [Field("a", Ref(1)), Field("b", Ref(2))], 1 := [], 2 := [Field("c", Ref(1))]]
    requires h == map[0 := [Field("b", Ref(2)), Field("a", Ref(1))], 1 := [], 2 := [Field("c", Ref(1))]]
    ensures WellFormed(g) && WellFormed(h)
    ensures Verdict(g, limits, Ref(0)).error.None? && Deep(g, Ref(0), limits.maxDepth)
    ensures Verdict(h, limits, Ref(0)).error == Some(TOO_DEEP)
  {
    SharedNearFirst(limits, g);
    SharedFarFirst(limits, h);
    assert Leads(g, g[2][0].value, [], 1);
    OneLinkMore(g, 2, 0, [], 1);
    OneLinkMore(g, 0, 1, [0], 1);
    assert [1] + [0] == [1, 0] && [0] + [] == [0];
  }

  lemma SharedNearFirst(limits: Limits, g: Graph)
    requires limits.maxDepth == 2 && limits.maxKeys >= 3
    requires g == map[0 := [Field("a", Ref(1)), Field("b", Ref(2))], 1 := [], 2 := [Field("c", Ref(1))]]
    ensures WellFormed(g) && Verdict(g, limits, Ref(0)).error.None?
  {
    assert InspectFields(g, limits, 1, 0, 2, 1, {0, 1}) == Outcome(None, 1, {0, 1});
    assert {0} + {1} == {0, 1};
    assert Inspect(g, limits, Ref(1), 1, 1, {0}) == Outcome(None, 1, {0, 1});
    assert Inspect(g, limits, Ref(1), 2, 3, {0, 1, 2}) == Outcome(None, 3, {0, 1, 2});
    assert InspectFields(g, limits, 2, 1, 2, 3, {0, 1, 2}) == Outcome(None, 3, {0, 1, 2});
    assert InspectFields(g, limits, 2, 0, 2, 2, {0, 1, 2}) == Outcome(None, 3, {0, 1, 2});
    assert {0, 1} + {2} == {0, 1, 2};
    assert Inspect(g, limits, Ref(2), 1, 2, {0, 1}) == Outcome(None, 3, {0, 1, 2});
    assert InspectFields(g, limits, 0, 2, 1, 3, {0, 1, 2}) == Outcome(None, 3, {0, 1, 2});
    assert InspectFields(g, limits, 0, 1, 1, 1, {0, 1}) == Outcome(None, 3, {0, 1, 2});
    assert InspectFields(g, limits, 0, 0, 1, 0, {0}) == Outcome(None, 3, {0, 1, 2});
    assert {} + {0} == {0};
  }

  lemma SharedFarFirst(limits: Limits, h: Graph)
    requires limits.maxDepth == 2 && limits.maxKeys >= 3
    requires h == map[0 := [Field("b", Ref(2)), Field("a", Ref(1))], 1 := [], 2 := [Field("c", Ref(1))]]
    ensures WellFormed(h) && Verdict(h, limits, Ref(0)).error == Some(TOO_DEEP)
  {
    assert {0, 2} + {1} == {0, 1, 2} && {0} + {2} == {0, 2} && {} + {0} == {0};
    assert Inspect(h, limits, Ref(1), 2, 2, {0, 2}) == Outcome(Some(TOO_DEEP), 2, {0, 1, 2});
    assert InspectFields(h, limits, 2, 0, 2, 1, {0, 2}) == Outcome(Some(TOO_DEEP), 2, {0, 1, 2});
    assert Inspect(h, limits, Ref(2), 1, 1, {0}) == Outcome(Some(TOO_DEEP), 2, {0, 1, 2});
    assert InspectFields(h, limits, 0, 0, 1, 0, {0}) == Outcome(Some(TOO_DEEP), 2, {0, 1, 2});
  }
}

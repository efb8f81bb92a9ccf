/** Typed content-addressed objects and reachability over the `object_edges` table. */
module ObjectGraph {
  datatype Kind = Whole | Chunk | ChunkManifest | Thread | RevisionRoot

  /** A stored object is named by its kind and its SHA-256 digest. */
  datatype Obj = Obj(kind: Kind, sha256: nat)

  datatype Edge = Edge(owner: Obj, target: Obj)

  function Successors(edges: set<Edge>, seen: set<Obj>): set<Obj> {
    set e | e in edges && e.owner in seen :: e.target
  }

  ghost predicate Closed(edges: set<Edge>, s: set<Obj>) {
    forall e :: e in edges && e.owner in s ==> e.target in s
  }

  /** The rows of SQLite's recursive UNION query: everything `seen` reaches along `edges`. */
  function Reach(edges: set<Edge>, seen: set<Obj>): (r: set<Obj>)
    ensures seen <= r
    ensures Closed(edges, r)
    decreases (set e | e in edges :: e.target) - seen
  {
    var next := seen + Successors(edges, seen);
    if next == seen then
      assert forall e :: e in edges && e.owner in seen ==> e.target in next;
      seen
    else
      assert exists o :: o in next && o !in seen;
      Reach(edges, next)
  }

  /** `Reach` is the least closed set above its seed. */
  lemma {:induction false} ReachLeast(edges: set<Edge>, seen: set<Obj>, s: set<Obj>)
    requires seen <= s && Closed(edges, s)
    ensures Reach(edges, seen) <= s
    decreases (set e | e in edges :: e.target) - seen
  {
    var next := seen + Successors(edges, seen);
    if next != seen {
      assert exists o :: o in next && o !in seen;
      ReachLeast(edges, next, s);
    }
  }

  lemma ReachMonotone(edges: set<Edge>, seen: set<Obj>, edges': set<Edge>, seen': set<Obj>)
    requires edges <= edges' && seen <= seen'
    ensures Reach(edges, seen) <= Reach(edges', seen')
  {
    ReachLeast(edges, seen, Reach(edges', seen'));
  }

  lemma ReachUnion(edges: set<Edge>, a: set<Obj>, b: set<Obj>)
    ensures Reach(edges, a + b) == Reach(edges, a) + Reach(edges, b)
  {
    ReachMonotone(edges, a, edges, a + b);
    ReachMonotone(edges, b, edges, a + b);
    ReachLeast(edges, a + b, Reach(edges, a) + Reach(edges, b));
  }

  // ----- reachability by paths -----

  ghost predicate IsPath(edges: set<Edge>, path: seq<Obj>) {
    && |path| > 0
    && forall i :: 0 <= i < |path| - 1 ==> Edge(path[i], path[i + 1]) in edges
  }

  ghost predicate PathTo(edges: set<Edge>, seed: set<Obj>, o: Obj, path: seq<Obj>) {
    IsPath(edges, path) && path[0] in seed && path[|path| - 1] == o
  }

  /** Membership in the recursive query equals the existence of a path, cycles or not. */
  lemma ReachIsPathReach(edges: set<Edge>, seed: set<Obj>, o: Obj)
    ensures o in Reach(edges, seed) <==> exists path :: PathTo(edges, seed, o, path)
  {
    forall path | PathTo(edges, seed, o, path)
      ensures o in Reach(edges, seed)
    {
      PathStaysInside(edges, path, Reach(edges, seed));
    }
    if o in Reach(edges, seed) {
      var path := PathOf(edges, seed, o);
    }
  }

  lemma {:induction false} PathStaysInside(edges: set<Edge>, path: seq<Obj>, s: set<Obj>)
    requires IsPath(edges, path) && Closed(edges, s) && path[0] in s
    ensures path[|path| - 1] in s
  {
    if |path| > 1 {
      assert Edge(path[0], path[1]) in edges;
      PathStaysInside(edges, path[1..], s);
    }
  }

  lemma {:induction false} PathOf(edges: set<Edge>, seed: set<Obj>, o: Obj) returns (path: seq<Obj>)
    requires o in Reach(edges, seed)
    ensures PathTo(edges, seed, o, path)
    decreases (set e | e in edges :: e.target) - seed
  {
    var next := seed + Successors(edges, seed);
    if next == seed {
      path := [o];
    } else {
      assert exists x :: x in next && x !in seed;
      path := PathOf(edges, next, o);
      if path[0] !in seed {
        var e :| e in edges && e.owner in seed && e.target == path[0];
        path := [e.owner] + path;
      }
    }
  }

  // ----- deleting edges -----

  /** What `complete_gc_entry` leaves of the edge table: no edge into or out of `o`. */
  function WithoutObject(edges: set<Edge>, o: Obj): set<Edge> {
    set e | e in edges && e.owner != o && e.target != o
  }

  /** Deleting every edge of an unreachable object changes nothing that is reachable. */
  lemma SweepKeepsReach(edges: set<Edge>, seed: set<Obj>, o: Obj)
    requires o !in Reach(edges, seed)
    ensures Reach(WithoutObject(edges, o), seed) == Reach(edges, seed)
  {
    var kept := WithoutObject(edges, o);
    ReachMonotone(kept, seed, edges, seed);
    ReachLeast(edges, seed, Reach(kept, seed));
  }

  /** Changing the out-edges of an unreachable owner changes nothing that is reachable. */
  lemma RelinkKeepsReach(edges: set<Edge>, edges': set<Edge>, seed: set<Obj>, owner: Obj)
    requires owner !in Reach(edges, seed)
    requires forall e: Edge :: e.owner != owner ==> (e in edges <==> e in edges')
    ensures Reach(edges', seed) == Reach(edges, seed)
  {
    ReachLeast(edges', seed, Reach(edges, seed));
    ReachLeast(edges, seed, Reach(edges', seed));
  }
}

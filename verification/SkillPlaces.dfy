/** What the counters of the skill walk count: the places in the directory that a path of readable folders leads to. */
module SkillPlaces {
  import opened Wrappers
  import opened SkillScan

  /** What stands at the end of a path of entry numbers through readable folders. */
  function At(n: Node, path: seq<nat>): Option<Node>
    decreases |path|
  {
    if path == [] then Some(n)
    else if n.Folder? && n.readable && path[0] < |n.entries| then At(n.entries[path[0]], path[1..])
    else None
  }

  predicate Is(what: Counter, n: Node) {
    match what
    case Directories => n.Folder?
    case Files => n.SkillFile? || n.PlainFile?
    case Undeclared => n.SkillFile? && !n.declared
    case Links => n.Link?
    case Unreadable => n.Folder? && !n.readable
  }

  function Behind(k: nat, paths: set<seq<nat>>): set<seq<nat>> {
    set path | path in paths :: [k] + path
  }

  /** The paths that lead to what a counter counts. */
  function Places(what: Counter, n: Node): set<seq<nat>>
    decreases n
  {
    (if Is(what, n) then {[]} else {}) + if n.Folder? && n.readable then PlacesIn(what, n.entries) else {}
  }

  function PlacesIn(what: Counter, ns: seq<Node>): set<seq<nat>>
    decreases ns
  {
    if ns == [] then {} else PlacesIn(what, ns[..|ns| - 1]) + Behind(|ns| - 1, Places(what, ns[|ns| - 1]))
  }

  lemma BehindIff(k: nat, paths: set<seq<nat>>, path: seq<nat>)
    ensures path in Behind(k, paths) <==> path != [] && path[0] == k && path[1..] in paths
  {
    if path != [] && path[0] == k && path[1..] in paths {
      assert path == [k] + path[1..];
    }
    if path in Behind(k, paths) {
      var rest :| rest in paths && path == [k] + rest;
      assert path[1..] == rest;
    }
  }

  lemma {:induction false} PlacesInIff(what: Counter, ns: seq<Node>, path: seq<nat>)
    ensures path in PlacesIn(what, ns) <==>
            path != [] && path[0] < |ns| && At(ns[path[0]], path[1..]).Some? && Is(what, At(ns[path[0]], path[1..]).value)
    decreases ns
  {
    if ns != [] {
      var init, last := ns[..|ns| - 1], ns[|ns| - 1];
      PlacesInIff(what, init, path);
      BehindIff(|ns| - 1, Places(what, last), path);
      if path != [] {
        PlacesIff(what, last, path[1..]);
      }
    }
  }

  /** A path leads to a counted place iff readable folders lead along it to something the counter counts. */
  lemma {:induction false} PlacesIff(what: Counter, n: Node, path: seq<nat>)
    ensures path in Places(what, n) <==> At(n, path).Some? && Is(what, At(n, path).value)
    decreases n
  {
    if n.Folder? && n.readable {
      PlacesInIff(what, n.entries, path);
    }
  }

  lemma {:induction false} BehindSize(k: nat, paths: set<seq<nat>>)
    ensures |Behind(k, paths)| == |paths|
  {
    if paths != {} {
      var path :| path in paths;
      var others := paths - {path};
      BehindSize(k, others);
      forall p ensures p in Behind(k, paths) <==> p in Behind(k, others) || p == [k] + path {
        BehindIff(k, paths, p);
        BehindIff(k, others, p);
        assert ([k] + path)[1..] == path;
      }
      BehindIff(k, others, [k] + path);
      assert ([k] + path)[1..] == path;
      assert Behind(k, paths) == Behind(k, others) + {[k] + path};
    }
  }

  lemma {:induction false} PlacesInSize(what: Counter, ns: seq<Node>)
    ensures |PlacesIn(what, ns)| == CountOf(what, ns)
    decreases ns
  {
    if ns != [] {
      var init, last := ns[..|ns| - 1], ns[|ns| - 1];
      PlacesInSize(what, init);
      PlacesAreCounted(what, last);
      BehindSize(|ns| - 1, Places(what, last));
      forall path | path in PlacesIn(what, init) ensures path !in Behind(|ns| - 1, Places(what, last)) {
        PlacesInIff(what, init, path);
        BehindIff(|ns| - 1, Places(what, last), path);
      }
    }
  }

  /** A counter of the recursive walk is the number of places that it counts. */
  lemma {:induction false} PlacesAreCounted(what: Counter, n: Node)
    ensures CountIn(what, n) == |Places(what, n)|
    decreases n
  {
    if n.Folder? && n.readable {
      PlacesInSize(what, n.entries);
      PlacesInIff(what, n.entries, []);
    }
  }
}

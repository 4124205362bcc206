/** Static import closure of the UI bundle (apps/web/scripts/check-ui-bundle.ts).
    `chunks` maps each emitted chunk to the chunk names it imports statically. */
module ImportClosure {
  import opened Wrappers

  type Chunks = map<string, seq<string>>

  /** A chain of static imports that starts at `entry`. */
  ghost predicate IsPath(chunks: Chunks, entry: string, path: seq<string>) {
    && path != [] && path[0] == entry
    && forall i :: 0 <= i < |path| - 1 ==> path[i] in chunks && path[i + 1] in chunks[path[i]]
  }

  ghost predicate Reachable(chunks: Chunks, entry: string, asset: string) {
    exists path :: IsPath(chunks, entry, path) && path[|path| - 1] == asset
  }

  ghost predicate Closed(chunks: Chunks, s: set<string>) {
    forall a, b :: a in s && a in chunks && b in chunks[a] ==> b in s
  }

  lemma ImportIsReachable(chunks: Chunks, entry: string, asset: string, dependency: string)
    requires Reachable(chunks, entry, asset) && asset in chunks && dependency in chunks[asset]
    ensures Reachable(chunks, entry, dependency)
  {
    var path :| IsPath(chunks, entry, path) && path[|path| - 1] == asset;
    assert IsPath(chunks, entry, path + [dependency]);
  }

  /** The reachable assets are the least closed set around the entry. */
  lemma {:induction false} ReachableIsLeast(chunks: Chunks, entry: string, s: set<string>, path: seq<string>)
    requires entry in s && Closed(chunks, s) && IsPath(chunks, entry, path)
    ensures path[|path| - 1] in s
    decreases |path|
  {
    if |path| > 1 {
      var front := path[..|path| - 1];
      assert IsPath(chunks, entry, front);
      ReachableIsLeast(chunks, entry, s, front);
    }
  }

  ghost predicate AllReachable(chunks: Chunks, entry: string, closure: set<string>, pending: seq<string>) {
    && (forall a :: a in closure ==> Reachable(chunks, entry, a))
    && (forall k :: 0 <= k < |pending| ==> Reachable(chunks, entry, pending[k]))
  }

  /** Everything a collected asset imports is collected or waiting. */
  ghost predicate Explored(chunks: Chunks, closure: set<string>, pending: seq<string>) {
    && closure <= chunks.Keys
    && forall a, b :: a in closure && a in chunks && b in chunks[a] ==> b in closure || b in pending
  }

  /** The inner loop: push the imports of `asset`, or report the first missing one. */
  method PushImports(imports: seq<string>, chunks: Chunks, pending: seq<string>)
    returns (missing: Option<string>, longer: seq<string>)
    ensures missing.None? ==> longer == pending + imports
    ensures missing.Some? ==> missing.value in imports && missing.value !in chunks
  {
    longer := pending;
    var i := 0;
    while i < |imports|
      invariant 0 <= i <= |imports|
      invariant longer == pending + imports[..i]
    {
      if imports[i] !in chunks {
        return Some(imports[i]), longer;
      }
      longer := longer + [imports[i]];
      i := i + 1;
    }
    missing := None;
  }

  lemma EntryIsReachable(chunks: Chunks, entry: string)
    ensures Reachable(chunks, entry, entry)
  {
    assert IsPath(chunks, entry, [entry]);
  }

  lemma ExploreOne(chunks: Chunks, entry: string, closure: set<string>, pending: seq<string>)
    requires pending != [] && AllReachable(chunks, entry, closure, pending) && Explored(chunks, closure, pending)
    requires pending[|pending| - 1] in chunks
    ensures var asset := pending[|pending| - 1];
            var longer := pending[..|pending| - 1] + chunks[asset];
            && AllReachable(chunks, entry, closure + {asset}, longer)
            && Explored(chunks, closure + {asset}, longer)
  {
    var n := |pending| - 1;
    var asset := pending[n];
    var longer := pending[..n] + chunks[asset];
    forall k | 0 <= k < |longer| ensures Reachable(chunks, entry, longer[k]) {
      if k >= n { ImportIsReachable(chunks, entry, asset, chunks[asset][k - n]); }
    }
    assert pending == pending[..n] + [asset];
    forall a, b | a in closure + {asset} && a in chunks && b in chunks[a]
      ensures b in closure + {asset} || b in longer
    {
      if a != asset && b !in closure { assert b in pending; }
    }
  }

  lemma SkipCollected(chunks: Chunks, entry: string, closure: set<string>, pending: seq<string>)
    requires pending != [] && AllReachable(chunks, entry, closure, pending) && Explored(chunks, closure, pending)
    requires pending[|pending| - 1] in closure
    ensures AllReachable(chunks, entry, closure, pending[..|pending| - 1])
    ensures Explored(chunks, closure, pending[..|pending| - 1])
  {
    assert pending == pending[..|pending| - 1] + [pending[|pending| - 1]];
  }

  /** The set is exactly what the entry reaches. */
  ghost predicate ExactClosure(chunks: Chunks, entry: string, s: set<string>) {
    forall asset :: asset in s <==> Reachable(chunks, entry, asset)
  }

  lemma ExploredIsExact(chunks: Chunks, entry: string, closure: set<string>)
    requires entry in closure && AllReachable(chunks, entry, closure, []) && Explored(chunks, closure, [])
    ensures ExactClosure(chunks, entry, closure)
  {
    assert Closed(chunks, closure);
    forall asset | Reachable(chunks, entry, asset) ensures asset in closure {
      var path :| IsPath(chunks, entry, path) && path[|path| - 1] == asset;
      ReachableIsLeast(chunks, entry, closure, path);
    }
  }

  /** An exact closure contains the entry, is closed, and lies inside every closed set
      around the entry. */
  lemma ExactClosureIsLeast(chunks: Chunks, entry: string, closure: set<string>, s: set<string>)
    requires ExactClosure(chunks, entry, closure)
    ensures entry in closure && Closed(chunks, closure)
    ensures entry in s && Closed(chunks, s) ==> closure <= s
  {
    EntryIsReachable(chunks, entry);
    forall a, b | a in closure && a in chunks && b in chunks[a] ensures b in closure {
      ImportIsReachable(chunks, entry, a, b);
    }
    if entry in s && Closed(chunks, s) {
      forall asset | asset in closure ensures asset in s {
        var path :| IsPath(chunks, entry, path) && path[|path| - 1] == asset;
        ReachableIsLeast(chunks, entry, s, path);
      }
    }
  }

  /** `collectStaticImportClosure`: a worklist that terminates on cyclic graphs.  It
      returns exactly the reachable assets, and fails exactly when one is missing. */
  method CollectStaticImportClosure(entry: string, chunks: Chunks) returns (r: Result<set<string>, string>)
    ensures r.Ok? ==> ExactClosure(chunks, entry, r.value) && r.value <= chunks.Keys
    ensures r.Err? ==> Reachable(chunks, entry, r.error) && r.error !in chunks
  {
    var closure: set<string> := {};
    var pending := [entry];
    EntryIsReachable(chunks, entry);
    while pending != []
      invariant entry in closure || (pending != [] && pending[0] == entry)
      invariant AllReachable(chunks, entry, closure, pending)
      invariant Explored(chunks, closure, pending)
      decreases |chunks.Keys - closure|, |pending|
    {
      var asset := pending[|pending| - 1];
      if asset in closure {
        SkipCollected(chunks, entry, closure, pending);
        pending := pending[..|pending| - 1];
        continue;
      }
      if asset !in chunks {
        return Err(asset);
      }
      ExploreOne(chunks, entry, closure, pending);
      FewerLeft(chunks.Keys, closure, asset);
      closure := closure + {asset};
      var missing, longer := PushImports(chunks[asset], chunks, pending[..|pending| - 1]);
      if missing.Some? {
        ImportIsReachable(chunks, entry, asset, missing.value);
        return Err(missing.value);
      }
      pending := longer;
    }
    ExploredIsExact(chunks, entry, closure);
    r := Ok(closure);
  }

  lemma FewerLeft(all: set<string>, closure: set<string>, asset: string)
    requires asset in all && asset !in closure
    ensures |all - (closure + {asset})| < |all - closure|
  {
    assert all - closure == (all - (closure + {asset})) + {asset};
  }

  // ------------------------------------------------------------------- bytes

  function SizeOf(sizes: map<string, nat>, asset: string): nat {
    if asset in sizes then sizes[asset] else 0
  }

  ghost function TotalBytes(closure: set<string>, sizes: map<string, nat>): nat {
    if closure == {} then 0
    else
      var asset :| asset in closure;
      SizeOf(sizes, asset) + TotalBytes(closure - {asset}, sizes)
  }

  /** The total does not depend on the order of iteration. */
  lemma {:induction false} TotalWithout(closure: set<string>, sizes: map<string, nat>, asset: string)
    requires asset in closure
    ensures TotalBytes(closure, sizes) == SizeOf(sizes, asset) + TotalBytes(closure - {asset}, sizes)
    decreases closure
  {
    var first :| first in closure &&
        TotalBytes(closure, sizes) == SizeOf(sizes, first) + TotalBytes(closure - {first}, sizes);
    if first != asset {
      TotalWithout(closure - {first}, sizes, asset);
      TotalWithout(closure - {asset}, sizes, first);
      assert closure - {first} - {asset} == closure - {asset} - {first};
    }
  }

  /** `sumGzipBytes`, iterating in any order. */
  method SumGzipBytes(closure: set<string>, sizes: map<string, nat>) returns (total: nat)
    ensures total == TotalBytes(closure, sizes)
  {
    total := 0;
    var remaining := closure;
    while remaining != {}
      invariant remaining <= closure
      invariant total + TotalBytes(remaining, sizes) == TotalBytes(closure, sizes)
      decreases remaining
    {
      var asset :| asset in remaining;
      TotalWithout(remaining, sizes, asset);
      total := total + SizeOf(sizes, asset);
      remaining := remaining - {asset};
    }
  }

  /** `subtractChunks` */
  function SubtractChunks(chunks: set<string>, baseline: set<string>): set<string> {
    set asset | asset in chunks && asset !in baseline
  }

  /** The bytes of the App closure and the bytes a route adds to it are together the
      bytes of everything the route loads. */
  lemma {:induction false} IncrementalBytesAddUp(app: set<string>, route: set<string>, sizes: map<string, nat>)
    ensures TotalBytes(app, sizes) + TotalBytes(SubtractChunks(route, app), sizes) == TotalBytes(app + route, sizes)
    decreases route
  {
    if SubtractChunks(route, app) == {} {
      assert forall asset :: asset in route && asset !in app ==> asset in SubtractChunks(route, app);
      assert app + route == app;
    } else {
      var asset :| asset in SubtractChunks(route, app);
      var rest := route - {asset};
      IncrementalBytesAddUp(app, rest, sizes);
      assert SubtractChunks(rest, app) == SubtractChunks(route, app) - {asset};
      assert app + rest == (app + route) - {asset};
      TotalWithout(SubtractChunks(route, app), sizes, asset);
      TotalWithout(app + route, sizes, asset);
    }
  }
}

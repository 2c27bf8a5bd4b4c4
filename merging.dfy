/**
 * RemoveDuplicates of the dnSpy-based front end (DnSpyDecompiler.cs): when the client and server
 * modules are merged, a resource survives only if no earlier resource, in this or an earlier module,
 * had the same name, and a type survives only if no earlier type had the same full name. Names are
 * compared ordinally (List<string>.Contains).
 *
 * `KeepFirst` is the running-cache filter the method performs; `FirstOccurrences` is the reference
 * reading "kept exactly when no earlier item has the key". The source removes each duplicate from the
 * very collection it is enumerating; `RemoveDuplicatesAsWritten` models what that does.
 */
module Merging {
  import opened Outcomes
  import opened Modules

  function ResourceKey(r: Resource): string { r.name }
  function TypeKey(t: TypeDef): string { t.FullName() }

  function KeySet<T(==)>(xs: seq<T>, key: T -> string): set<string> {
    set x | x in xs :: key(x)
  }

  /** No two items of `xs` share a key. */
  predicate DistinctKeys<T(==)>(xs: seq<T>, key: T -> string) {
    forall i, j :: 0 <= i < j < |xs| ==> key(xs[i]) != key(xs[j])
  }

  /** The running-cache filter: an item is kept when its key is not yet cached; every key is cached after its item. */
  function KeepFirst<T(==)>(xs: seq<T>, key: T -> string, seen: set<string>): seq<T> {
    if xs == [] then []
    else (if key(xs[0]) in seen then [] else [xs[0]]) + KeepFirst(xs[1..], key, seen + {key(xs[0])})
  }

  /** The reference reading: the last item is kept exactly when neither a cached key nor an earlier item has its key. */
  function FirstOccurrences<T(==)>(xs: seq<T>, key: T -> string, seen: set<string>): seq<T> {
    if xs == [] then []
    else
      var init := xs[..|xs| - 1];
      var last := xs[|xs| - 1];
      FirstOccurrences(init, key, seen) + (if key(last) in seen || key(last) in KeySet(init, key) then [] else [last])
  }

  lemma KeySetAppend<T>(xs: seq<T>, ys: seq<T>, key: T -> string)
    ensures KeySet(xs + ys, key) == KeySet(xs, key) + KeySet(ys, key)
  {
    assert forall x :: x in xs + ys <==> x in xs || x in ys;
  }

  lemma {:induction false} KeepFirstAppend<T>(xs: seq<T>, ys: seq<T>, key: T -> string, seen: set<string>)
    ensures KeepFirst(xs + ys, key, seen) == KeepFirst(xs, key, seen) + KeepFirst(ys, key, seen + KeySet(xs, key))
    decreases |xs|
  {
    if xs == [] {
      assert xs + ys == ys;
      assert seen + KeySet(xs, key) == seen;
    } else {
      var seen' := seen + {key(xs[0])};
      var head := if key(xs[0]) in seen then [] else [xs[0]];
      assert (xs + ys)[0] == xs[0] && (xs + ys)[1..] == xs[1..] + ys;
      assert KeepFirst(xs + ys, key, seen) == head + KeepFirst(xs[1..] + ys, key, seen');
      KeepFirstAppend(xs[1..], ys, key, seen');
      KeySetCons(xs, key);
      assert seen' + KeySet(xs[1..], key) == seen + KeySet(xs, key);
      assert KeepFirst(xs, key, seen) == head + KeepFirst(xs[1..], key, seen');
    }
  }

  lemma KeySetCons<T>(xs: seq<T>, key: T -> string)
    requires xs != []
    ensures KeySet(xs, key) == {key(xs[0])} + KeySet(xs[1..], key)
  {
    assert xs == [xs[0]] + xs[1..];
    KeySetAppend([xs[0]], xs[1..], key);
    assert KeySet([xs[0]], key) == {key(xs[0])};
  }

  /** The cache filter and the reference reading agree on every input. */
  lemma {:induction false} KeepFirstIsFirstOccurrences<T>(xs: seq<T>, key: T -> string, seen: set<string>)
    ensures KeepFirst(xs, key, seen) == FirstOccurrences(xs, key, seen)
    decreases |xs|
  {
    if xs != [] {
      var init := xs[..|xs| - 1];
      var last := xs[|xs| - 1];
      KeepFirstIsFirstOccurrences(init, key, seen);
      assert xs == init + [last];
      KeepFirstAppend(init, [last], key, seen);
      var seen' := seen + KeySet(init, key);
      assert KeepFirst([last], key, seen') == (if key(last) in seen' then [] else [last]) + KeepFirst([], key, seen' + {key(last)});
    }
  }

  /** What survives comes from the input and carries no key that was cached before. */
  lemma {:induction false} KeepFirstFromInput<T>(xs: seq<T>, key: T -> string, seen: set<string>)
    ensures forall y :: y in KeepFirst(xs, key, seen) ==> y in xs && key(y) !in seen
    decreases |xs|
  {
    if xs != [] {
      KeepFirstFromInput(xs[1..], key, seen + {key(xs[0])});
    }
  }

  /** No two surviving items share a key. */
  lemma {:induction false} KeepFirstDistinct<T>(xs: seq<T>, key: T -> string, seen: set<string>)
    ensures DistinctKeys(KeepFirst(xs, key, seen), key)
    decreases |xs|
  {
    if xs != [] {
      var rest := KeepFirst(xs[1..], key, seen + {key(xs[0])});
      KeepFirstDistinct(xs[1..], key, seen + {key(xs[0])});
      KeepFirstFromInput(xs[1..], key, seen + {key(xs[0])});
      if key(xs[0]) !in seen {
        var r := [xs[0]] + rest;
        assert forall j :: 0 < j < |r| ==> r[j] == rest[j - 1] && r[j] in rest;
      }
    }
  }

  /** Every key of the input that was not cached before survives on some item. */
  lemma {:induction false} KeepFirstCovers<T>(xs: seq<T>, key: T -> string, seen: set<string>)
    ensures forall x :: x in xs && key(x) !in seen ==> exists y :: y in KeepFirst(xs, key, seen) && key(y) == key(x)
    decreases |xs|
  {
    if xs != [] {
      var seen' := seen + {key(xs[0])};
      KeepFirstCovers(xs[1..], key, seen');
      var head := if key(xs[0]) in seen then [] else [xs[0]];
      var rest := KeepFirst(xs[1..], key, seen');
      assert KeepFirst(xs, key, seen) == head + rest;
      forall x | x in xs && key(x) !in seen
        ensures exists y :: y in KeepFirst(xs, key, seen) && key(y) == key(x)
      {
        if key(x) == key(xs[0]) {
          assert xs[0] in KeepFirst(xs, key, seen);
        } else {
          assert x in xs[1..];
          var y :| y in rest && key(y) == key(x);
          assert y in KeepFirst(xs, key, seen);
        }
      }
    }
  }

  /** A collection whose keys are distinct and uncached passes the filter unchanged. */
  lemma {:induction false} KeepFirstIdentity<T>(xs: seq<T>, key: T -> string, seen: set<string>)
    requires DistinctKeys(xs, key)
    requires forall x :: x in xs ==> key(x) !in seen
    ensures KeepFirst(xs, key, seen) == xs
    decreases |xs|
  {
    if xs != [] {
      assert forall j :: 0 <= j < |xs| - 1 ==> xs[1..][j] == xs[j + 1] && key(xs[j + 1]) != key(xs[0]);
      KeepFirstIdentity(xs[1..], key, seen + {key(xs[0])});
    }
  }

  // ---------------------------------------------------------------------------------------
  // Over the module list

  /** The module list after the merge, given the names already cached. */
  function DedupFrom(ms: seq<Module>, seenResources: set<string>, seenTypes: set<string>): seq<Module>
    decreases |ms|
  {
    if ms == [] then []
    else
      var m := ms[0];
      [m.(resources := KeepFirst(m.resources, ResourceKey, seenResources), types := KeepFirst(m.types, TypeKey, seenTypes))]
        + DedupFrom(ms[1..], seenResources + KeySet(m.resources, ResourceKey), seenTypes + KeySet(m.types, TypeKey))
  }

  /** RemoveDuplicates, as its authors meant it. */
  function Dedup(ms: seq<Module>): seq<Module> {
    DedupFrom(ms, {}, {})
  }

  /** Merging one more module: its filtered copy comes next, and its names join the caches. */
  lemma DedupStep(ms: seq<Module>, i: nat, seenResources: set<string>, seenTypes: set<string>, done: seq<Module>, all: seq<Module>)
    requires i < |ms| && done + DedupFrom(ms[i..], seenResources, seenTypes) == all
    ensures (done + [ms[i].(resources := KeepFirst(ms[i].resources, ResourceKey, seenResources),
                            types := KeepFirst(ms[i].types, TypeKey, seenTypes))])
      + DedupFrom(ms[i + 1..], seenResources + KeySet(ms[i].resources, ResourceKey), seenTypes + KeySet(ms[i].types, TypeKey)) == all
  {
    assert ms[i..][0] == ms[i] && ms[i..][1..] == ms[i + 1..];
  }

  /** Every resource of the module list, module by module. */
  function AllResources(ms: seq<Module>): seq<Resource> {
    if ms == [] then [] else ms[0].resources + AllResources(ms[1..])
  }

  /** Every type of the module list, module by module. */
  function AllTypes(ms: seq<Module>): seq<TypeDef> {
    if ms == [] then [] else ms[0].types + AllTypes(ms[1..])
  }

  /** Merging keeps every module, in order, and changes nothing in it but its resources and types. */
  lemma {:induction false} DedupKeepsModules(ms: seq<Module>, seenResources: set<string>, seenTypes: set<string>)
    ensures |DedupFrom(ms, seenResources, seenTypes)| == |ms|
    ensures forall i :: 0 <= i < |ms| ==>
      DedupFrom(ms, seenResources, seenTypes)[i] ==
        ms[i].(resources := DedupFrom(ms, seenResources, seenTypes)[i].resources, types := DedupFrom(ms, seenResources, seenTypes)[i].types)
    decreases |ms|
  {
    if ms != [] {
      var seenR := seenResources + KeySet(ms[0].resources, ResourceKey);
      var seenT := seenTypes + KeySet(ms[0].types, TypeKey);
      DedupKeepsModules(ms[1..], seenR, seenT);
      assert forall i :: 0 < i < |ms| ==> DedupFrom(ms, seenResources, seenTypes)[i] == DedupFrom(ms[1..], seenR, seenT)[i - 1];
    }
  }

  /** Across the whole module list the merge is the cache filter over all resources and over all types. */
  lemma {:induction false} DedupIsKeepFirst(ms: seq<Module>, seenResources: set<string>, seenTypes: set<string>)
    ensures AllResources(DedupFrom(ms, seenResources, seenTypes)) == KeepFirst(AllResources(ms), ResourceKey, seenResources)
    ensures AllTypes(DedupFrom(ms, seenResources, seenTypes)) == KeepFirst(AllTypes(ms), TypeKey, seenTypes)
    decreases |ms|
  {
    if ms != [] {
      var m := ms[0];
      DedupIsKeepFirst(ms[1..], seenResources + KeySet(m.resources, ResourceKey), seenTypes + KeySet(m.types, TypeKey));
      KeepFirstAppend(m.resources, AllResources(ms[1..]), ResourceKey, seenResources);
      KeepFirstAppend(m.types, AllTypes(ms[1..]), TypeKey, seenTypes);
    }
  }

  /** The keys that survive the filter are exactly the input's keys that were not cached before. */
  lemma KeepFirstKeySet<T>(xs: seq<T>, key: T -> string, seen: set<string>)
    ensures KeySet(KeepFirst(xs, key, seen), key) == KeySet(xs, key) - seen
  {
    var kept := KeepFirst(xs, key, seen);
    KeepFirstFromInput(xs, key, seen);
    KeepFirstCovers(xs, key, seen);
    forall k | k in KeySet(xs, key) - seen ensures k in KeySet(kept, key) {
      var x :| x in xs && key(x) == k;
      var y :| y in kept && key(y) == key(x);
    }
  }

  /** Filtering one collection from an empty cache: the first occurrences, with distinct keys, and no key lost. */
  lemma KeepFirstFromEmpty<T>(xs: seq<T>, key: T -> string)
    ensures KeepFirst(xs, key, {}) == FirstOccurrences(xs, key, {})
    ensures DistinctKeys(KeepFirst(xs, key, {}), key)
    ensures KeySet(KeepFirst(xs, key, {}), key) == KeySet(xs, key)
  {
    KeepFirstIsFirstOccurrences(xs, key, {});
    KeepFirstDistinct(xs, key, {});
    KeepFirstKeySet(xs, key, {});
    assert KeySet(xs, key) - {} == KeySet(xs, key);
  }

  /**
   * After the merge the surviving resources are exactly the first occurrence of each name, and the
   * surviving types the first occurrence of each full name, in list order; hence no two survivors
   * share a name, and every name of the input survives.
   */
  lemma DedupIsFirstOccurrences(ms: seq<Module>)
    ensures AllResources(Dedup(ms)) == FirstOccurrences(AllResources(ms), ResourceKey, {})
    ensures AllTypes(Dedup(ms)) == FirstOccurrences(AllTypes(ms), TypeKey, {})
    ensures DistinctKeys(AllResources(Dedup(ms)), ResourceKey) && DistinctKeys(AllTypes(Dedup(ms)), TypeKey)
    ensures KeySet(AllResources(Dedup(ms)), ResourceKey) == KeySet(AllResources(ms), ResourceKey)
    ensures KeySet(AllTypes(Dedup(ms)), TypeKey) == KeySet(AllTypes(ms), TypeKey)
  {
    DedupIsKeepFirst(ms, {}, {});
    KeepFirstFromEmpty(AllResources(ms), ResourceKey);
    KeepFirstFromEmpty(AllTypes(ms), TypeKey);
  }

  // ---------------------------------------------------------------------------------------
  // The method

  /** Scanning one more item of the collection: kept when its key is new, and its key is cached. */
  lemma KeepFirstStep<T>(xs: seq<T>, key: T -> string, j: nat, seen: set<string>, kept: seq<T>, all: seq<T>)
    requires j < |xs| && kept + KeepFirst(xs[j..], key, seen) == all
    ensures (kept + if key(xs[j]) in seen then [] else [xs[j]]) + KeepFirst(xs[j + 1..], key, seen + {key(xs[j])}) == all
  {
    assert xs[j..][0] == xs[j] && xs[j..][1..] == xs[j + 1..];
  }

  lemma KeySetSnoc<T>(xs: seq<T>, key: T -> string, j: nat)
    requires j < |xs|
    ensures KeySet(xs[..j + 1], key) == KeySet(xs[..j], key) + {key(xs[j])}
  {
    assert xs[..j + 1] == xs[..j] + [xs[j]];
    KeySetAppend(xs[..j], [xs[j]], key);
  }

  /** Adding a key to the cache list adds it to the set of cached keys. */
  lemma CacheAdd(cache: seq<string>, seen: set<string>, k: string)
    requires forall x :: x in cache <==> x in seen
    ensures forall x :: x in cache + [k] <==> x in seen + {k}
  {
  }

  /** The cache list, the cached keys and the kept items after the scan of `xs[..j]`. */
  ghost predicate ScannedUpTo<T>(xs: seq<T>, key: T -> string, seen: set<string>, j: nat,
                                 kept: seq<T>, cache: seq<string>, seen': set<string>)
    requires j <= |xs|
  {
    && (forall k :: k in cache <==> k in seen')
    && seen' == seen + KeySet(xs[..j], key)
    && kept + KeepFirst(xs[j..], key, seen') == KeepFirst(xs, key, seen)
  }

  /** Scanning item `j`: a new key is kept and cached, a cached one is dropped. */
  lemma ScanStep<T>(xs: seq<T>, key: T -> string, seen: set<string>, j: nat,
                    kept: seq<T>, cache: seq<string>, seen': set<string>)
    requires j < |xs| && ScannedUpTo(xs, key, seen, j, kept, cache, seen')
    ensures key(xs[j]) in cache ==> ScannedUpTo(xs, key, seen, j + 1, kept, cache, seen' + {key(xs[j])})
    ensures key(xs[j]) !in cache ==>
      ScannedUpTo(xs, key, seen, j + 1, kept + [xs[j]], cache + [key(xs[j])], seen' + {key(xs[j])})
  {
    KeepFirstStep(xs, key, j, seen', kept, KeepFirst(xs, key, seen));
    KeySetSnoc(xs, key, j);
    if key(xs[j]) in cache {
      assert seen' + {key(xs[j])} == seen';
    } else {
      CacheAdd(cache, seen', key(xs[j]));
    }
  }

  /** The kept part of one module's collection, scanning it against the shared cache list. */
  method FilterAgainstCache<T(==)>(xs: seq<T>, key: T -> string, cache: seq<string>, ghost seen: set<string>)
    returns (kept: seq<T>, cache': seq<string>)
    requires forall k :: k in cache <==> k in seen
    ensures kept == KeepFirst(xs, key, seen)
    ensures forall k :: k in cache' <==> k in seen + KeySet(xs, key)
  {
    kept := [];
    cache' := cache;
    ghost var seen' := seen;
    assert KeySet(xs[..0], key) == {};
    for j := 0 to |xs|
      invariant ScannedUpTo(xs, key, seen, j, kept, cache', seen')
    {
      ScanStep(xs, key, seen, j, kept, cache', seen');
      if key(xs[j]) !in cache' {
        cache' := cache' + [key(xs[j])];
        kept := kept + [xs[j]];
      }
      seen' := seen' + {key(xs[j])};
    }
    assert xs[..|xs|] == xs;
  }

  /**
   * RemoveDuplicates over the module list, in place: each module's resources and types are replaced
   * by those that survive, against one resource cache and one type cache shared by all modules.
   */
  method RemoveDuplicates(files: array<Module>)
    modifies files
    ensures files[..] == Dedup(old(files[..]))
  {
    var resourceCache: seq<string> := [];
    var typeCache: seq<string> := [];
    ghost var seenR: set<string> := {};
    ghost var seenT: set<string> := {};
    ghost var original := files[..];
    for i := 0 to files.Length
      invariant files[i..] == original[i..]
      invariant forall k :: k in resourceCache <==> k in seenR
      invariant forall k :: k in typeCache <==> k in seenT
      invariant files[..i] + DedupFrom(original[i..], seenR, seenT) == Dedup(original)
    {
      var m := files[i];
      DedupStep(original, i, seenR, seenT, files[..i], Dedup(original));
      var resources, types;
      resources, resourceCache := FilterAgainstCache(m.resources, ResourceKey, resourceCache, seenR);
      types, typeCache := FilterAgainstCache(m.types, TypeKey, typeCache, seenT);
      files[i] := m.(resources := resources, types := types);
      seenR := seenR + KeySet(m.resources, ResourceKey);
      seenT := seenT + KeySet(m.types, TypeKey);
      assert files[..i + 1] == files[..i] + [files[i]];
    }
    assert files[..] == files[..files.Length];
  }

  /** The Merge gate of Decompile: the merge runs only when Merge is set; otherwise every module is left as loaded. */
  function MergeGate(merge: bool, ms: seq<Module>): (r: seq<Module>)
    ensures !merge ==> r == ms
    ensures |r| == |ms| && forall i :: 0 <= i < |ms| ==> r[i].location == ms[i].location
  {
    DedupKeepsModules(ms, {}, {});
    if merge then Dedup(ms) else ms
  }

  // ---------------------------------------------------------------------------------------
  // As written

  /**
   * One collection scanned as the source does: a duplicate is removed from the collection being
   * enumerated, and the enumerator's next MoveNext then throws InvalidOperationException. Otherwise
   * the key is cached and the scan goes on; the result is the cache afterwards.
   */
  function ScanAsWritten<T(==)>(xs: seq<T>, key: T -> string, cache: set<string>): Result<set<string>> {
    if xs == [] then Ok(cache)
    else if key(xs[0]) in cache then Err("Collection was modified; enumeration operation may not execute.")
    else ScanAsWritten(xs[1..], key, cache + {key(xs[0])})
  }

  function DedupAsWrittenFrom(ms: seq<Module>, resourceCache: set<string>, typeCache: set<string>): Result<seq<Module>>
    decreases |ms|
  {
    if ms == [] then Ok([])
    else
      match ScanAsWritten(ms[0].resources, ResourceKey, resourceCache)
      case Err(e) => Err(e)
      case Ok(rc) =>
        match ScanAsWritten(ms[0].types, TypeKey, typeCache)
        case Err(e) => Err(e)
        case Ok(tc) =>
          match DedupAsWrittenFrom(ms[1..], rc, tc)
          case Err(e) => Err(e)
          case Ok(rest) => Ok([ms[0]] + rest)
  }

  /** RemoveDuplicates as written: it either throws or, having removed nothing, leaves the modules as they were. */
  function RemoveDuplicatesAsWritten(ms: seq<Module>): Result<seq<Module>> {
    DedupAsWrittenFrom(ms, {}, {})
  }

  /** Scanning one collection as written completes exactly when its keys are distinct and none is cached. */
  lemma {:induction false} ScanAsWrittenOkIff<T>(xs: seq<T>, key: T -> string, cache: set<string>)
    ensures ScanAsWritten(xs, key, cache).Ok? <==> DistinctKeys(xs, key) && forall x :: x in xs ==> key(x) !in cache
    decreases |xs|
  {
    if xs != [] {
      ScanAsWrittenOkIff(xs[1..], key, cache + {key(xs[0])});
      assert xs == [xs[0]] + xs[1..];
      assert KeySet([xs[0]], key) == {key(xs[0])};
      DistinctKeysAppend([xs[0]], xs[1..], key, cache);
    }
  }

  /** A completed scan leaves every key of the collection cached. */
  lemma {:induction false} ScanAsWrittenCache<T>(xs: seq<T>, key: T -> string, cache: set<string>)
    requires ScanAsWritten(xs, key, cache).Ok?
    ensures ScanAsWritten(xs, key, cache).value == cache + KeySet(xs, key)
    decreases |xs|
  {
    if xs != [] {
      ScanAsWrittenCache(xs[1..], key, cache + {key(xs[0])});
      KeySetCons(xs, key);
    }
  }

  /** The code as written completes exactly when there is nothing to remove. */
  lemma {:induction false} DedupAsWrittenOkIff(ms: seq<Module>, resourceCache: set<string>, typeCache: set<string>)
    ensures DedupAsWrittenFrom(ms, resourceCache, typeCache).Ok? <==>
      DistinctKeys(AllResources(ms), ResourceKey) && (forall r :: r in AllResources(ms) ==> r.name !in resourceCache)
      && DistinctKeys(AllTypes(ms), TypeKey) && (forall t :: t in AllTypes(ms) ==> t.FullName() !in typeCache)
    decreases |ms|
  {
    if ms != [] {
      var m := ms[0];
      ScanAsWrittenOkIff(m.resources, ResourceKey, resourceCache);
      ScanAsWrittenOkIff(m.types, TypeKey, typeCache);
      if ScanAsWritten(m.resources, ResourceKey, resourceCache).Ok? {
        ScanAsWrittenCache(m.resources, ResourceKey, resourceCache);
      }
      if ScanAsWritten(m.types, TypeKey, typeCache).Ok? {
        ScanAsWrittenCache(m.types, TypeKey, typeCache);
      }
      DedupAsWrittenOkIff(ms[1..], resourceCache + KeySet(m.resources, ResourceKey), typeCache + KeySet(m.types, TypeKey));
      DistinctKeysAppend(m.resources, AllResources(ms[1..]), ResourceKey, resourceCache);
      DistinctKeysAppend(m.types, AllTypes(ms[1..]), TypeKey, typeCache);
    }
  }

  /** When the code as written completes it returns the modules unchanged, and so does the intended merge. */
  lemma {:induction false} DedupAsWrittenUnchanged(ms: seq<Module>, resourceCache: set<string>, typeCache: set<string>)
    requires DedupAsWrittenFrom(ms, resourceCache, typeCache).Ok?
    ensures DedupAsWrittenFrom(ms, resourceCache, typeCache).value == ms
    ensures DedupFrom(ms, resourceCache, typeCache) == ms
    decreases |ms|
  {
    if ms != [] {
      var m := ms[0];
      ScanAsWrittenOkIff(m.resources, ResourceKey, resourceCache);
      ScanAsWrittenOkIff(m.types, TypeKey, typeCache);
      ScanAsWrittenCache(m.resources, ResourceKey, resourceCache);
      ScanAsWrittenCache(m.types, TypeKey, typeCache);
      DedupAsWrittenUnchanged(ms[1..], resourceCache + KeySet(m.resources, ResourceKey), typeCache + KeySet(m.types, TypeKey));
      KeepFirstIdentity(m.resources, ResourceKey, resourceCache);
      KeepFirstIdentity(m.types, TypeKey, typeCache);
    }
  }

  /**
   * A concatenation has distinct keys, none of them cached, exactly when both parts do and the second
   * part's keys avoid the first part's.
   */
  lemma DistinctKeysAppend<T>(xs: seq<T>, ys: seq<T>, key: T -> string, seen: set<string>)
    ensures (DistinctKeys(xs + ys, key) && forall z :: z in xs + ys ==> key(z) !in seen) <==>
      (DistinctKeys(xs, key) && (forall x :: x in xs ==> key(x) !in seen)
       && DistinctKeys(ys, key) && (forall y :: y in ys ==> key(y) !in seen + KeySet(xs, key)))
  {
    var zs := xs + ys;
    assert forall z :: z in zs <==> z in xs || z in ys;
    assert forall i :: 0 <= i < |xs| ==> zs[i] == xs[i];
    assert forall j :: 0 <= j < |ys| ==> zs[|xs| + j] == ys[j];
    if DistinctKeys(zs, key) {
      forall y | y in ys ensures key(y) !in KeySet(xs, key) {
        var j :| 0 <= j < |ys| && ys[j] == y;
        forall x | x in xs ensures key(x) != key(y) {
          var i :| 0 <= i < |xs| && xs[i] == x;
          assert zs[i] == x && zs[|xs| + j] == y;
        }
      }
    }
    if DistinctKeys(xs, key) && DistinctKeys(ys, key) && forall y :: y in ys ==> key(y) !in KeySet(xs, key) {
      forall i, j | 0 <= i < j < |zs| ensures key(zs[i]) != key(zs[j]) {
        if i < |xs| && j >= |xs| {
          assert zs[i] in xs && zs[j] == ys[j - |xs|] && zs[j] in ys;
        }
      }
    }
  }

  /** The code as written completes exactly when no resource name and no type full name repeats across the modules. */
  lemma RemoveDuplicatesAsWrittenOkIff(ms: seq<Module>)
    ensures RemoveDuplicatesAsWritten(ms).Ok? <==>
      DistinctKeys(AllResources(ms), ResourceKey) && DistinctKeys(AllTypes(ms), TypeKey)
    ensures RemoveDuplicatesAsWritten(ms).Ok? ==> RemoveDuplicatesAsWritten(ms).value == ms == Dedup(ms)
  {
    DedupAsWrittenOkIff(ms, {}, {});
    if RemoveDuplicatesAsWritten(ms).Ok? {
      DedupAsWrittenUnchanged(ms, {}, {});
    }
  }

  /** Two modules that both embed a resource called "a": the intended merge drops the second one; the code as written throws. */
  lemma RemoveDuplicatesAsWrittenThrows()
    ensures RemoveDuplicatesAsWritten([Module("client.dll", "C", "C", Version(1, 0, 0, 0), [], [Resource("a", true)], []),
                                       Module("server.dll", "S", "S", Version(1, 0, 0, 0), [], [Resource("a", true)], [])]).Err?
    ensures Dedup([Module("client.dll", "C", "C", Version(1, 0, 0, 0), [], [Resource("a", true)], []),
                   Module("server.dll", "S", "S", Version(1, 0, 0, 0), [], [Resource("a", true)], [])])
            == [Module("client.dll", "C", "C", Version(1, 0, 0, 0), [], [Resource("a", true)], []),
                Module("server.dll", "S", "S", Version(1, 0, 0, 0), [], [], [])]
  {
    var c := Module("client.dll", "C", "C", Version(1, 0, 0, 0), [], [Resource("a", true)], []);
    var s := Module("server.dll", "S", "S", Version(1, 0, 0, 0), [], [Resource("a", true)], []);
    var s' := Module("server.dll", "S", "S", Version(1, 0, 0, 0), [], [], []);
    assert KeepFirst(c.resources, ResourceKey, {}) == c.resources by {
      assert c.resources[1..] == [];
    }
    assert KeySet(c.resources, ResourceKey) == {"a"};
    assert KeySet(c.types, TypeKey) == {};
    assert KeepFirst(s.resources, ResourceKey, {"a"}) == [] by {
      assert s.resources[1..] == [];
    }
    assert [c, s][1..] == [s];
    assert DedupFrom([s], {"a"}, {}) == [s'] by {
      assert [s][1..] == [];
    }
    assert Dedup([c, s]) == [c] + DedupFrom([s], {} + {"a"}, {} + {});
    RemoveDuplicatesAsWrittenOkIff([c, s]);
    assert AllResources([c, s])[0] == AllResources([c, s])[1] by {
      assert AllResources([c, s]) == c.resources + AllResources([s]);
      assert AllResources([s]) == s.resources + AllResources([]);
    }
  }
}

/** base/path_service.cc: paths by key from overrides and providers, with a cache. A provider
    may itself ask the service for other keys. */
module PathService {
  import opened Options

  const DIR_CURRENT: int := 1

  // What a provider does next, given the answers to what it has asked so far: it asks for
  // another key, or it returns, whether it knows the key and what it stored in *result.
  datatype Action = Ask(key: int) | Return(found: bool, stored: Option<string>)

  type ProviderFunc = (int, seq<Option<string>>) -> Action

  datatype Provider = Provider(func: ProviderFunc, keyStart: int, keyEnd: int)

  // The file system functions used, which do not change.
  datatype Files = Files(referencesParent: string -> bool, makeAbsolute: string -> string)

  /** Providers ask in no circle: `rank` goes down with each question, no provider asks more
      than `most` questions for one key, and none asks for the current directory, which is
      never cached. */
  ghost predicate WellFounded(providers: seq<Provider>, rank: int -> nat, most: nat) {
    forall i, key, answers :: 0 <= i < |providers| && providers[i].func(key, answers).Ask? ==>
      var asked := providers[i].func(key, answers).key;
      rank(asked) < rank(key) && asked > DIR_CURRENT && |answers| < most
  }

  // ----- the resolver without a cache

  ghost function Resolve(key: int, overrides: map<int, string>, providers: seq<Provider>, files: Files,
                   rank: int -> nat, most: nat): Option<string>
    requires WellFounded(providers, rank, most)
    decreases rank(key), |providers| + 1, 0
  {
    if key in overrides then Some(overrides[key])
    else Checked(Walk(key, "", 0, overrides, providers, files, rank, most), files)
  }

  // The provider list from position i on; `path` is what is in the result variable.
  ghost function Walk(key: int, path: string, i: nat, overrides: map<int, string>, providers: seq<Provider>,
                files: Files, rank: int -> nat, most: nat): string
    requires WellFounded(providers, rank, most) && i <= |providers|
    decreases rank(key), |providers| - i, most + 1
  {
    if i == |providers| then path
    else
      var (found, stored) := Consult(key, i, [], overrides, providers, files, rank, most);
      var now := if stored.Some? then stored.value else path;
      if found then now else Walk(key, now, i + 1, overrides, providers, files, rank, most)
  }

  // One provider, which has had these answers.
  ghost function Consult(key: int, i: nat, answers: seq<Option<string>>, overrides: map<int, string>,
                   providers: seq<Provider>, files: Files, rank: int -> nat, most: nat): (bool, Option<string>)
    requires WellFounded(providers, rank, most) && i < |providers|
    decreases rank(key), |providers| - i, if |answers| > most then 0 else most - |answers|
  {
    match providers[i].func(key, answers)
    case Return(found, stored) => (found, stored)
    case Ask(other) =>
      var answer := Resolve(other, overrides, providers, files, rank, most);
      Consult(key, i, answers + [answer], overrides, providers, files, rank, most)
  }

  // Nothing, or a path with ".." that cannot be made absolute, is a failure.
  function Checked(path: string, files: Files): Option<string> {
    if path == "" then None
    else if files.referencesParent(path) then
      if files.makeAbsolute(path) == "" then None else Some(files.makeAbsolute(path))
    else Some(path)
  }

  /** If no absolute path has ".." in it, then no path that comes from a provider has. */
  lemma NoParents(key: int, overrides: map<int, string>, providers: seq<Provider>, files: Files,
                  rank: int -> nat, most: nat)
    requires WellFounded(providers, rank, most) && key !in overrides
    requires forall path :: !files.referencesParent(files.makeAbsolute(path))
    ensures var r := Resolve(key, overrides, providers, files, rank, most);
      r.Some? ==> r.value != "" && !files.referencesParent(r.value)
  {
    hide Walk;
  }

  /** The first provider that knows the key decides, if those before it leave the result alone:
      its path is found as it is, or, with ".." in it, made absolute; and nothing is found if it
      is empty or cannot be made absolute. */
  lemma FirstProviderAnswers(key: int, i: nat, path: string, overrides: map<int, string>, providers: seq<Provider>,
                             files: Files, rank: int -> nat, most: nat)
    requires WellFounded(providers, rank, most) && key !in overrides && i < |providers|
    requires forall j :: 0 <= j < i ==>
      Consult(key, j, [], overrides, providers, files, rank, most) == (false, None)
    requires Consult(key, i, [], overrides, providers, files, rank, most) == (true, Some(path))
    ensures var r := Resolve(key, overrides, providers, files, rank, most);
      && (path != "" && !files.referencesParent(path) ==> r == Some(path))
      && (path != "" && files.referencesParent(path) && files.makeAbsolute(path) != "" ==>
           r == Some(files.makeAbsolute(path)))
      && (path == "" || (files.referencesParent(path) && files.makeAbsolute(path) == "") ==> r == None)
  {
    FirstFoundEndsWalk(key, 0, i, path, overrides, providers, files, rank, most);
  }

  lemma {:induction false} FirstFoundEndsWalk(key: int, from: nat, i: nat, path: string, overrides: map<int, string>,
                                              providers: seq<Provider>, files: Files, rank: int -> nat, most: nat)
    requires WellFounded(providers, rank, most) && from <= i < |providers|
    requires forall j :: from <= j < i ==>
      Consult(key, j, [], overrides, providers, files, rank, most) == (false, None)
    requires Consult(key, i, [], overrides, providers, files, rank, most) == (true, Some(path))
    ensures Walk(key, "", from, overrides, providers, files, rank, most) == path
    decreases i - from
  {
    if from == i {
    } else {
      FirstFoundEndsWalk(key, from + 1, i, path, overrides, providers, files, rank, most);
    }
  }

  /** Nothing is found for a key that no provider knows. */
  lemma NobodyKnows(key: int, overrides: map<int, string>, providers: seq<Provider>, files: Files,
                    rank: int -> nat, most: nat)
    requires WellFounded(providers, rank, most) && key !in overrides
    requires forall j :: 0 <= j < |providers| ==>
      Consult(key, j, [], overrides, providers, files, rank, most) == (false, None)
    ensures Resolve(key, overrides, providers, files, rank, most) == None
  {
    NothingFound(key, 0, overrides, providers, files, rank, most);
  }

  lemma {:induction false} NothingFound(key: int, from: nat, overrides: map<int, string>, providers: seq<Provider>,
                                        files: Files, rank: int -> nat, most: nat)
    requires WellFounded(providers, rank, most) && from <= |providers|
    requires forall j :: from <= j < |providers| ==>
      Consult(key, j, [], overrides, providers, files, rank, most) == (false, None)
    ensures Walk(key, "", from, overrides, providers, files, rank, most) == ""
    decreases |providers| - from
  {
    if from == |providers| {
    } else {
      NothingFound(key, from + 1, overrides, providers, files, rank, most);
    }
  }

  // ----- registering one more provider

  predicate Claims(p: Provider, key: int) {
    p.keyStart <= key < p.keyEnd
  }

  /** A provider that answers no key outside its range. */
  ghost predicate KeepsToItsRange(p: Provider) {
    forall key :: !Claims(p, key) ==> p.func(key, []) == Return(false, None)
  }

  /** The resolver, at work on a key, takes none of its questions to a key of p's range for
      which there is no override, neither for the key itself nor for what providers ask. */
  ghost predicate Avoids(p: Provider, key: int, overrides: map<int, string>, others: seq<Provider>, files: Files,
                         rank: int -> nat, most: nat)
    requires WellFounded(others, rank, most)
    decreases rank(key), |others| + 1, 0
  {
    key in overrides || (!Claims(p, key) && WalkAvoids(p, key, 0, overrides, others, files, rank, most))
  }

  ghost predicate WalkAvoids(p: Provider, key: int, i: nat, overrides: map<int, string>, others: seq<Provider>,
                             files: Files, rank: int -> nat, most: nat)
    requires WellFounded(others, rank, most) && i <= |others|
    decreases rank(key), |others| - i, most + 1
  {
    i == |others| ||
    (&& ConsultAvoids(p, key, i, [], overrides, others, files, rank, most)
     && (Consult(key, i, [], overrides, others, files, rank, most).0
         || WalkAvoids(p, key, i + 1, overrides, others, files, rank, most)))
  }

  ghost predicate ConsultAvoids(p: Provider, key: int, i: nat, answers: seq<Option<string>>,
                                overrides: map<int, string>, others: seq<Provider>, files: Files,
                                rank: int -> nat, most: nat)
    requires WellFounded(others, rank, most) && i < |others|
    decreases rank(key), |others| - i, if |answers| > most then 0 else most - |answers|
  {
    match others[i].func(key, answers)
    case Return(_, _) => true
    case Ask(other) =>
      && Avoids(p, other, overrides, others, files, rank, most)
      && var answer := Resolve(other, overrides, others, files, rank, most);
         ConsultAvoids(p, key, i, answers + [answer], overrides, others, files, rank, most)
  }

  /** A new provider that keeps to its range changes no answer for which the range was not
      asked. */
  lemma {:induction false} NewProviderKeepsAnswers(key: int, overrides: map<int, string>, p: Provider,
                                                   others: seq<Provider>, files: Files, rank: int -> nat, most: nat)
    requires WellFounded([p] + others, rank, most) && WellFounded(others, rank, most) && KeepsToItsRange(p)
    requires Avoids(p, key, overrides, others, files, rank, most)
    ensures Resolve(key, overrides, [p] + others, files, rank, most)
         == Resolve(key, overrides, others, files, rank, most)
    decreases rank(key), |others| + 1, 0
  {
    if key !in overrides {
      assert ([p] + others)[0] == p;
      assert Consult(key, 0, [], overrides, [p] + others, files, rank, most) == (false, None);
      SameWalk(key, "", 0, overrides, p, others, files, rank, most);
    }
  }

  lemma {:induction false} SameWalk(key: int, path: string, i: nat, overrides: map<int, string>, p: Provider,
                                    others: seq<Provider>, files: Files, rank: int -> nat, most: nat)
    requires WellFounded([p] + others, rank, most) && WellFounded(others, rank, most) && KeepsToItsRange(p)
    requires i <= |others| && WalkAvoids(p, key, i, overrides, others, files, rank, most)
    ensures Walk(key, path, i + 1, overrides, [p] + others, files, rank, most)
         == Walk(key, path, i, overrides, others, files, rank, most)
    decreases rank(key), |others| - i, most + 1
  {
    if i < |others| {
      SameConsult(key, i, [], overrides, p, others, files, rank, most);
      var (found, stored) := Consult(key, i, [], overrides, others, files, rank, most);
      if !found {
        SameWalk(key, if stored.Some? then stored.value else path, i + 1, overrides, p, others, files, rank, most);
      }
    }
  }

  lemma {:induction false} SameConsult(key: int, i: nat, answers: seq<Option<string>>, overrides: map<int, string>,
                                       p: Provider, others: seq<Provider>, files: Files, rank: int -> nat, most: nat)
    requires WellFounded([p] + others, rank, most) && WellFounded(others, rank, most) && KeepsToItsRange(p)
    requires i < |others| && ConsultAvoids(p, key, i, answers, overrides, others, files, rank, most)
    ensures Consult(key, i + 1, answers, overrides, [p] + others, files, rank, most)
         == Consult(key, i, answers, overrides, others, files, rank, most)
    decreases rank(key), |others| - i, if |answers| > most then 0 else most - |answers|
  {
    assert ([p] + others)[i + 1] == others[i];
    match others[i].func(key, answers) {
      case Return(_, _) =>
      case Ask(other) =>
        NewProviderKeepsAnswers(other, overrides, p, others, files, rank, most);
        var answer := Resolve(other, overrides, others, files, rank, most);
        SameConsult(key, i, answers + [answer], overrides, p, others, files, rank, most);
    }
  }

  /** Where ranges do not overlap, as registration checks, nobody could answer for a key of
      the new range before. */
  lemma NobodyAnswered(key: int, overrides: map<int, string>, p: Provider, others: seq<Provider>, files: Files,
                       rank: int -> nat, most: nat)
    requires WellFounded(others, rank, most) && Claims(p, key)
    requires forall j :: 0 <= j < |others| ==> KeepsToItsRange(others[j]) && !Claims(others[j], key)
    ensures Resolve(key, overrides, others, files, rank, most)
         == if key in overrides then Some(overrides[key]) else None
  {
    if key !in overrides {
      forall j | 0 <= j < |others|
        ensures Consult(key, j, [], overrides, others, files, rank, most) == (false, None)
      {
        assert KeepsToItsRange(others[j]) && !Claims(others[j], key);
      }
      NobodyKnows(key, overrides, others, files, rank, most);
    }
  }

  // A provider for key 10 that falls back on a default when key 20 has no path, and one for
  // key 20 that is registered later.

  function WithFallback(key: int, answers: seq<Option<string>>): Action {
    if key != 10 then Return(false, None)
    else if answers == [] then Ask(20)
    else Return(true, if answers[0].Some? then answers[0] else Some("/default"))
  }

  function Late(key: int, answers: seq<Option<string>>): Action {
    if key == 20 then Return(true, Some("/late")) else Return(false, None)
  }

  const EARLY_PROVIDER := Provider(WithFallback, 10, 11)
  const LATE_PROVIDER := Provider(Late, 20, 21)

  /** Ranges that do not overlap are not enough. What Get finds, and caches, for key 10 is
      not what it finds after the second provider has been registered. */
  lemma DisjointRangesAreNotEnough(files: Files)
    requires !files.referencesParent("/default") && !files.referencesParent("/late")
    ensures var rank := (key: int) => if key == 10 then 1 else 0;
            && KeepsToItsRange(EARLY_PROVIDER) && KeepsToItsRange(LATE_PROVIDER)
            && (forall key :: Claims(EARLY_PROVIDER, key) ==> !Claims(LATE_PROVIDER, key))
            && WellFounded([EARLY_PROVIDER], rank, 1) && WellFounded([LATE_PROVIDER, EARLY_PROVIDER], rank, 1)
            && Resolve(10, map[], [EARLY_PROVIDER], files, rank, 1) == Some("/default")
            && Resolve(10, map[], [LATE_PROVIDER, EARLY_PROVIDER], files, rank, 1) == Some("/late")
  {
    var rank := (key: int) => if key == 10 then 1 else 0;
    var both := [LATE_PROVIDER, EARLY_PROVIDER];
    EarlyFindsDefault(files);
    assert Consult(20, 0, [], map[], both, files, rank, 1) == (true, Some("/late"));
    assert Resolve(20, map[], both, files, rank, 1) == Some("/late");
    assert [] + [Some("/late")] == [Some("/late")];
    assert Consult(10, 1, [Some("/late")], map[], both, files, rank, 1) == (true, Some("/late"));
    assert Consult(10, 1, [], map[], both, files, rank, 1) == (true, Some("/late"));
    assert Consult(10, 0, [], map[], both, files, rank, 1) == (false, None);
    assert Walk(10, "", 1, map[], both, files, rank, 1) == "/late";
  }

  /** Nor is it enough to forget the cached path of the key whose override changes. With an
      override for key 20, what Get finds for key 10 is another path. */
  lemma OverrideReachesOtherKeys(files: Files)
    requires !files.referencesParent("/default") && !files.referencesParent("/here")
    ensures var rank := (key: int) => if key == 10 then 1 else 0;
            && WellFounded([EARLY_PROVIDER], rank, 1)
            && Resolve(10, map[], [EARLY_PROVIDER], files, rank, 1) == Some("/default")
            && Resolve(10, map[20 := "/here"], [EARLY_PROVIDER], files, rank, 1) == Some("/here")
  {
    var rank := (key: int) => if key == 10 then 1 else 0;
    var early, here := [EARLY_PROVIDER], map[20 := "/here"];
    EarlyFindsDefault(files);
    assert Resolve(20, here, early, files, rank, 1) == Some("/here");
    assert [] + [Some("/here")] == [Some("/here")];
    assert Consult(10, 0, [Some("/here")], here, early, files, rank, 1) == (true, Some("/here"));
    assert Consult(10, 0, [], here, early, files, rank, 1) == (true, Some("/here"));
    assert Walk(10, "", 0, here, early, files, rank, 1) == "/here";
  }

  lemma EarlyFindsDefault(files: Files)
    requires !files.referencesParent("/default")
    ensures var rank := (key: int) => if key == 10 then 1 else 0;
            && WellFounded([EARLY_PROVIDER], rank, 1)
            && Resolve(10, map[], [EARLY_PROVIDER], files, rank, 1) == Some("/default")
  {
    var rank := (key: int) => if key == 10 then 1 else 0;
    var early := [EARLY_PROVIDER];
    assert Walk(20, "", 1, map[], early, files, rank, 1) == "";
    assert Consult(20, 0, [], map[], early, files, rank, 1) == (false, None);
    assert Resolve(20, map[], early, files, rank, 1) == None;
    assert Consult(10, 0, [None], map[], early, files, rank, 1) == (true, Some("/default"));
    var nothing: Option<string> := None;
    assert [] + [nothing] == [nothing];
    assert Consult(10, 0, [], map[], early, files, rank, 1) == (true, Some("/default"));
  }

  class PathData {
    var cache: map<int, string>
    var overrides: map<int, string>
    var providers: seq<Provider>  // the linked list, head first
    var cacheDisabled: bool
    const files: Files
    ghost const rank: int -> nat
    ghost const most: nat

    ghost function Resolved(key: int): Option<string>
      requires WellFounded(providers, rank, most)
      reads this
    {
      Resolve(key, overrides, providers, files, rank, most)
    }

    /** Every cached path is what the resolver without a cache would find now. */
    ghost predicate Coherent()
      reads this
    {
      WellFounded(providers, rank, most) && forall k :: k in cache ==> Resolved(k) == Some(cache[k])
    }

    constructor (files: Files, base: seq<Provider>, ghost rank: int -> nat, ghost most: nat)
      requires WellFounded(base, rank, most)
      ensures Coherent() && providers == base && overrides == map[] && !cacheDisabled
    {
      this.files := files;
      this.rank := rank;
      this.most := most;
      cache := map[];
      overrides := map[];
      providers := base;
      cacheDisabled := false;
    }

    method LockedGetFromCache(key: int) returns (r: Option<string>)
      requires Coherent()
      ensures r.Some? ==> r == Resolved(key)
    {
      if cacheDisabled {
        return None;
      }
      r := if key in cache then Some(cache[key]) else None;
    }

    method LockedGetFromOverrides(key: int) returns (r: Option<string>)
      requires Coherent()
      modifies this`cache
      ensures Coherent()
      ensures r == if key in overrides then Some(overrides[key]) else None
    {
      if key !in overrides {
        return None;
      }
      if !cacheDisabled {
        cache := cache[key := overrides[key]];
      }
      r := Some(overrides[key]);
    }

    /** Get, in the current directory cwd: the same as without the cache, whatever calls
        came before, and the cache stays coherent. */
    method Get(key: int, cwd: Option<string>) returns (r: Option<string>)
      requires Coherent() && key >= DIR_CURRENT
      modifies this`cache
      ensures Coherent()
      ensures r == if key == DIR_CURRENT then cwd else Resolved(key)
      decreases rank(key), |providers| + 1, 0
    {
      if key == DIR_CURRENT {
        return cwd;
      }
      r := LockedGetFromCache(key);
      if r.Some? {
        return r;
      }
      r := LockedGetFromOverrides(key);
      if r.Some? {
        return r;
      }
      var path := "";
      var found := false;
      var provider := 0;
      while provider < |providers| && !found
        invariant Coherent() && 0 <= provider <= |providers|
        invariant Walk(key, "", 0, overrides, providers, files, rank, most)
               == if found then path else Walk(key, path, provider, overrides, providers, files, rank, most)
        decreases |providers| - provider, !found
      {
        var stored;
        found, stored := CallProvider(key, provider, [], cwd);
        if stored.Some? {
          path := stored.value;
        }
        if !found {
          provider := provider + 1;
        }
      }
      if path == "" {
        return None;
      }
      if files.referencesParent(path) {
        path := files.makeAbsolute(path);
        if path == "" {
          return None;
        }
      }
      if !cacheDisabled {
        cache := cache[key := path];
      }
      r := Some(path);
    }

    // provider->func(key, &path), with the calls of Get that it makes.
    method CallProvider(key: int, i: nat, answers: seq<Option<string>>, cwd: Option<string>)
      returns (found: bool, stored: Option<string>)
      requires Coherent() && i < |providers|
      modifies this`cache
      ensures Coherent()
      ensures (found, stored) == Consult(key, i, answers, overrides, providers, files, rank, most)
      decreases rank(key), |providers| - i, if |answers| > most then 0 else most - |answers|
    {
      match providers[i].func(key, answers)
      case Return(f, s) => return f, s;
      case Ask(other) =>
        var answer := Get(other, cwd);
        found, stored := CallProvider(key, i, answers + [answer], cwd);
    }

    /** Override and OverrideAndCreateIfNeeded; `created` says whether the directory exists
        or could be created. Everything cached is forgotten, so that the cache is coherent
        afterwards even if a new provider had made it wrong. */
    method OverrideAndCreateIfNeeded(key: int, path: string, isAbsolute: bool, create: bool, created: bool)
      returns (ok: bool)
      requires WellFounded(providers, rank, most) && key > DIR_CURRENT
      modifies this`cache, this`overrides
      ensures ok || old(Coherent()) ==> Coherent()
      ensures !ok ==> cache == old(cache)
      ensures ok <==> (!create || created) && (isAbsolute || files.makeAbsolute(path) != "")
      ensures overrides ==
        if ok then old(overrides)[key := if isAbsolute then path else files.makeAbsolute(path)] else old(overrides)
      ensures ok ==> Resolved(key) == Some(overrides[key])
    {
      var filePath := path;
      if create && !created {
        return false;
      }
      if !isAbsolute {
        filePath := files.makeAbsolute(filePath);
        if filePath == "" {
          return false;
        }
      }
      cache := map[];
      overrides := overrides[key := filePath];
      return true;
    }

    // Likewise.
    method RemoveOverride(key: int) returns (ok: bool)
      requires WellFounded(providers, rank, most)
      modifies this`cache, this`overrides
      ensures ok || old(Coherent()) ==> Coherent()
      ensures !ok ==> cache == old(cache)
      ensures (ok <==> key in old(overrides)) && overrides == old(overrides) - {key}
    {
      if key !in overrides {
        assert overrides - {key} == overrides;
        return false;
      }
      cache := map[];
      overrides := overrides - {key};
      return true;
    }

    /** The new provider becomes the first; the cache is not cleared. It stays coherent if no
        cached path came from a question in the new range. */
    method RegisterProvider(func: ProviderFunc, keyStart: int, keyEnd: int)
      requires Coherent() && keyEnd > keyStart
      modifies this`providers
      ensures providers == [Provider(func, keyStart, keyEnd)] + old(providers)
      ensures var p := Provider(func, keyStart, keyEnd);
        && WellFounded(providers, rank, most) && KeepsToItsRange(p)
        && (forall k :: k in cache ==> Avoids(p, k, overrides, old(providers), files, rank, most))
        ==> Coherent()
    {
      var p := Provider(func, keyStart, keyEnd);
      ghost var before := providers;
      ghost var found := map k | k in cache :: Resolved(k);
      providers := [p] + providers;
      if WellFounded(providers, rank, most) && KeepsToItsRange(p)
        && forall k :: k in cache ==> Avoids(p, k, overrides, before, files, rank, most)
      {
        forall k | k in cache
          ensures Resolved(k) == Some(cache[k])
        {
          assert found[k] == Some(cache[k]);
          NewProviderKeepsAnswers(k, overrides, p, before, files, rank, most);
        }
      }
    }

    method DisableCache()
      requires WellFounded(providers, rank, most)
      modifies this`cache, this`cacheDisabled
      ensures Coherent() && cacheDisabled && cache == map[]
    {
      cache := map[];
      cacheDisabled := true;
    }
  }
}

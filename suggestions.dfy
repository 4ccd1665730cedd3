/**
  The command-suggestion hook of the web client
  (web/app/hooks/useCommandSuggestions.ts): a reducer over the current
  user's chain, a module-level cache of chains per user in front of the
  browser's storage, and the merge of Markov suggestions with a list of
  fallback commands.
*/
module CommandSuggestions {
  import opened Wrappers
  import opened Strings
  import Js
  import Markov

  /** Commands recorded before the history counts as enough for Markov suggestions. */
  const MIN_COMMANDS_FOR_MARKOV: nat := 5

  /** A user id is `null` or a string; the empty string is falsy as well. */
  predicate SignedIn(userId: Option<string>) {
    userId.Some? && userId.value != ""
  }

  datatype ChainState = ChainState(chain: Markov.Chain, userId: Option<string>)

  datatype ChainAction =
    | AddCommandAction(command: string, user: string)
    | ChangeUser(newUser: Option<string>)

  /** The in-memory cache of chains and the chains saved in browser storage, by user id. */
  datatype Store = Store(cache: map<string, Markov.Chain>, storage: map<string, Markov.Chain>)

  /** `loadChainFromStorage`: the saved chain, or an empty one when none is saved. */
  function Load(storage: map<string, Markov.Chain>, user: string): Markov.Chain {
    if user in storage then storage[user] else Markov.EmptyChain()
  }

  /** `getOrLoadChain`: the store afterwards and the chain returned. */
  function GetOrLoad(store: Store, userId: Option<string>): (Store, Markov.Chain) {
    if !SignedIn(userId) then (store, Markov.EmptyChain())
    else
      var u := userId.value;
      var cache := if u in store.cache then store.cache else store.cache[u := Load(store.storage, u)];
      (store.(cache := cache), cache[u])
  }

  /** `chainReducer`: the store afterwards and the new state. */
  function Reduce(store: Store, state: ChainState, action: ChainAction): (Store, ChainState) {
    match action
    case ChangeUser(v) =>
      if v == state.userId then (store, state)
      else
        var (s, c) := GetOrLoad(store, v);
        (s, ChainState(c, v))
    case AddCommandAction(command, u) =>
      if u == "" then (store, state)
      else
        var c := Markov.AddCommand(state.chain, command);
        (Store(store.cache[u := c], store.storage[u := c]), state.(chain := c))
  }

  /** `createInitialState`. */
  function InitialState(store: Store, userId: Option<string>): (Store, ChainState) {
    var (s, c) := GetOrLoad(store, userId);
    (s, ChainState(c, userId))
  }

  /**
    Without a user the chain is empty and the store untouched. With one, a
    cached chain is returned as it is, and otherwise the saved chain is
    loaded into the cache; a second request then finds it there.
  */
  lemma GetOrLoadSpec(store: Store, userId: Option<string>)
    ensures var (s, c) := GetOrLoad(store, userId);
      (!SignedIn(userId) ==> s == store && c == Markov.EmptyChain()) &&
      (SignedIn(userId) && userId.value in store.cache ==> s == store && c == store.cache[userId.value]) &&
      (SignedIn(userId) && userId.value !in store.cache ==>
        c == Load(store.storage, userId.value) &&
        s == store.(cache := store.cache[userId.value := c])) &&
      GetOrLoad(s, userId) == (s, c)
  {
  }

  /** Switching to the user already shown changes nothing. */
  lemma ChangeToSameUser(store: Store, state: ChainState)
    ensures Reduce(store, state, ChangeUser(state.userId)) == (store, state)
  {
  }

  /**
    Adding a command for a signed-in user replaces the chain with the one
    `addCommandToChain` returns, keeps the user, and writes the new chain to
    the cache and to storage, so that loading the user yields it; without a
    user nothing changes.
  */
  lemma AddCommandReduces(store: Store, state: ChainState, command: string, u: string)
    ensures var (s, r) := Reduce(store, state, AddCommandAction(command, u));
      (u == "" ==> s == store && r == state) &&
      (u != "" ==>
        r.chain == Markov.AddCommand(state.chain, command) && r.userId == state.userId &&
        GetOrLoad(s, Some(u)) == (s, r.chain) && Load(s.storage, u) == r.chain &&
        (forall v :: v != u && v in store.cache ==> v in s.cache && s.cache[v] == store.cache[v]))
  {
  }

  /** `recordCommand`: the action it dispatches, if any. */
  function RecordAction(userId: Option<string>, command: string): Option<ChainAction> {
    if !SignedIn(userId) || Trim(command) == [] then None
    else Some(AddCommandAction(Trim(command), userId.value))
  }

  /**
    Recording ignores a missing user and a blank command; otherwise it adds
    the trimmed command, which counts exactly as adding the command itself.
  */
  lemma RecordCommandSpec(userId: Option<string>, command: string, chain: Markov.Chain)
    ensures RecordAction(userId, command).None? <==> !SignedIn(userId) || AllSpace(command)
    ensures RecordAction(userId, command).Some? ==>
      Markov.AddCommand(chain, RecordAction(userId, command).value.command) == Markov.AddCommand(chain, command)
  {
    TrimIdempotent(command);
  }

  /** `hasEnoughHistory`. */
  predicate HasEnoughHistory(chain: Markov.Chain) {
    Markov.CommandCount(chain) >= MIN_COMMANDS_FOR_MARKOV
  }

  /** Adds commands one after another. */
  function AddAll(chain: Markov.Chain, commands: seq<string>): Markov.Chain {
    if commands == [] then chain
    else Markov.AddCommand(AddAll(chain, commands[..|commands| - 1]), commands[|commands| - 1])
  }

  lemma {:induction false} AddAllCount(chain: Markov.Chain, commands: seq<string>)
    requires forall i :: 0 <= i < |commands| ==> !AllSpace(commands[i])
    ensures Markov.CommandCount(AddAll(chain, commands)) == Markov.CommandCount(chain) + |commands|
    decreases |commands|
  {
    if commands != [] {
      var n := |commands| - 1;
      AddAllCount(chain, commands[..n]);
      Markov.AddCommandCount(AddAll(chain, commands[..n]), commands[n]);
    }
  }

  /** A fresh user's history is enough exactly once five non-blank commands were recorded. */
  lemma EnoughHistoryAfterFive(commands: seq<string>)
    requires forall i :: 0 <= i < |commands| ==> !AllSpace(commands[i])
    ensures HasEnoughHistory(AddAll(Markov.EmptyChain(), commands)) <==> |commands| >= 5
  {
    var c := AddAll(Markov.EmptyChain(), commands);
    AddAllCount(Markov.EmptyChain(), commands);
    assert Markov.CommandCount(Markov.EmptyChain()) == 0;
    assert Markov.CommandCount(c) == |commands|;
  }

  // ---------------------------------------------------------------------
  // getSuggestionsForInput

  function Elements(s: seq<string>): set<string> {
    set x | x in s
  }

  predicate Distinct(s: seq<string>) {
    forall i, j :: 0 <= i < j < |s| ==> s[i] != s[j]
  }

  /** The first loop: each Markov suggestion not seen yet and different from the input. */
  function Dedupe(ms: seq<string>, trimmed: string): seq<string> {
    if ms == [] then []
    else
      var r := Dedupe(ms[..|ms| - 1], trimmed);
      var s := ms[|ms| - 1];
      if s !in r && s != trimmed then r + [s] else r
  }

  /** The `filter` over the fallback commands. */
  function Fallbacks(fallback: seq<string>, trimmed: string, seen: set<string>): seq<string> {
    if fallback == [] then []
    else
      var r := Fallbacks(fallback[..|fallback| - 1], trimmed, seen);
      var c := fallback[|fallback| - 1];
      if StartsWithIgnoreCase(c, trimmed) && c != trimmed && c !in seen then r + [c] else r
  }

  /** `results`, followed by as many of `more` as fit below `max` when there is room. */
  function Fill(results: seq<string>, more: seq<string>, max: int): seq<string> {
    if |results| < max then results + Js.Slice(more, 0, max - |results|) else results
  }

  /** The Markov results followed by the fallbacks that fit, before the final `slice`. */
  function Combined(ms: seq<string>, fallback: seq<string>, trimmed: string, max: int): seq<string> {
    var results := Dedupe(ms, trimmed);
    Fill(results, Fallbacks(fallback, trimmed, Elements(results)), max)
  }

  /** The results for a non-blank input, given the Markov suggestions. */
  function Merge(ms: seq<string>, fallback: seq<string>, trimmed: string, max: int): seq<string> {
    Js.Slice(Combined(ms, fallback, trimmed, max), 0, max)
  }

  /** `getSuggestionsForInput`, as the value it returns for a chain. */
  function ForInput(chain: Markov.Chain, fallback: seq<string>, input: string, max: int): seq<string> {
    var trimmed := Trim(input);
    if trimmed == [] then [] else Merge(Markov.Suggestions(chain, trimmed, max), fallback, trimmed, max)
  }

  /** The deduplicated list holds each Markov suggestion other than the input. */
  lemma {:induction false} DedupeMember(ms: seq<string>, trimmed: string, x: string)
    ensures x in Dedupe(ms, trimmed) <==> x in ms && x != trimmed
    decreases |ms|
  {
    if ms != [] {
      var n := |ms| - 1;
      DedupeMember(ms[..n], trimmed, x);
      assert ms == ms[..n] + [ms[n]];
    }
  }

  /** ... and each of them once. */
  lemma {:induction false} DedupeDistinct(ms: seq<string>, trimmed: string)
    ensures Distinct(Dedupe(ms, trimmed))
    decreases |ms|
  {
    if ms != [] {
      DedupeDistinct(ms[..|ms| - 1], trimmed);
    }
  }

  /** The filter keeps exactly the fallbacks that extend the input, differ from it and were not seen. */
  lemma {:induction false} FallbacksMember(fallback: seq<string>, trimmed: string, seen: set<string>, x: string)
    ensures x in Fallbacks(fallback, trimmed, seen) <==>
      x in fallback && StartsWithIgnoreCase(x, trimmed) && x != trimmed && x !in seen
    decreases |fallback|
  {
    if fallback != [] {
      var n := |fallback| - 1;
      FallbacksMember(fallback[..n], trimmed, seen, x);
      assert fallback == fallback[..n] + [fallback[n]];
    }
  }

  /** A fallback list without repeats gives matches without repeats. */
  lemma {:induction false} FallbacksDistinct(fallback: seq<string>, trimmed: string, seen: set<string>)
    requires Distinct(fallback)
    ensures Distinct(Fallbacks(fallback, trimmed, seen))
    decreases |fallback|
  {
    if fallback != [] {
      var n := |fallback| - 1;
      assert Distinct(fallback[..n]);
      FallbacksDistinct(fallback[..n], trimmed, seen);
      FallbacksMember(fallback[..n], trimmed, seen, fallback[n]);
      assert fallback[n] !in fallback[..n];
    }
  }

  /** `Fill` keeps `results` in front and tops it up from `more` to `max` entries, or until `more` runs out. */
  lemma FillShape(results: seq<string>, more: seq<string>, max: int)
    ensures var all := Fill(results, more, max);
      |results| <= |all| && all[..|results|] == results &&
      (|all| > |results| ==> |results| < max && |all| <= max) &&
      (forall i :: |results| <= i < |all| ==> i - |results| < |more| && all[i] == more[i - |results|])
    ensures var all := Fill(results, more, max);
      |results| < max ==> |all| == if |results| + |more| <= max then |results| + |more| else max
    ensures |results| >= max ==> Fill(results, more, max) == results
  {
    if |results| < max {
      Js.SliceTake(more, max - |results|);
    }
  }

  /** What `Combined` holds at each position. */
  lemma CombinedSpec(ms: seq<string>, fallback: seq<string>, trimmed: string, max: int)
    ensures var all := Combined(ms, fallback, trimmed, max);
      var results := Dedupe(ms, trimmed);
      (forall i :: |results| <= i < |all| ==>
        all[i] in fallback && StartsWithIgnoreCase(all[i], trimmed) && all[i] !in ms && all[i] != trimmed) &&
      (forall i :: 0 <= i < |results| ==> all[i] != trimmed) &&
      (Distinct(fallback) ==> Distinct(all))
  {
    var results := Dedupe(ms, trimmed);
    var all := Combined(ms, fallback, trimmed, max);
    var fb := Fallbacks(fallback, trimmed, Elements(results));
    FillShape(results, fb, max);
    forall i | |results| <= i < |all|
      ensures all[i] in fallback && StartsWithIgnoreCase(all[i], trimmed) && all[i] !in ms && all[i] != trimmed
    {
      FallbacksMember(fallback, trimmed, Elements(results), all[i]);
      DedupeMember(ms, trimmed, all[i]);
    }
    forall i | 0 <= i < |results| ensures all[i] != trimmed {
      assert all[i] == all[..|results|][i];
      DedupeMember(ms, trimmed, results[i]);
    }
    if Distinct(fallback) {
      DedupeDistinct(ms, trimmed);
      FallbacksDistinct(fallback, trimmed, Elements(results));
      forall x | x in fb ensures x !in Elements(results) {
        FallbacksMember(fallback, trimmed, Elements(results), x);
      }
      CombinedDistinct(all, results, fb);
    }
  }

  /** A repeat-free list followed by part of a disjoint repeat-free list has no repeats. */
  lemma CombinedDistinct(all: seq<string>, results: seq<string>, fb: seq<string>)
    requires Distinct(results) && Distinct(fb)
    requires forall x :: x in fb ==> x !in Elements(results)
    requires |results| <= |all| && all[..|results|] == results
    requires forall i :: |results| <= i < |all| ==> i - |results| < |fb| && all[i] == fb[i - |results|]
    ensures Distinct(all)
  {
    forall i, j | 0 <= i < j < |all| ensures all[i] != all[j] {
      if j >= |results| {
        if i < |results| {
          assert all[i] == all[..|results|][i];
          assert all[i] in Elements(results);
          assert all[j] in fb;
        }
      } else {
        assert all[i] == all[..|results|][i] && all[j] == all[..|results|][j];
      }
    }
  }

  /**
    The merged list has at most `max` entries: first Markov suggestions, in
    their order and without repeats, then fallback commands that extend the
    input and that no Markov suggestion already names. No entry is the
    input itself, and none repeats when the fallback list has no repeats.
    `MergeFill` states how many there are.
  */
  lemma MergeSpec(ms: seq<string>, fallback: seq<string>, trimmed: string, max: int)
    ensures var r := Merge(ms, fallback, trimmed, max);
      var results := Dedupe(ms, trimmed);
      var k := if |r| < |results| then |r| else |results|;
      (max >= 0 ==> |r| <= max) &&
      r[..k] == results[..k] &&
      (k < |r| ==> k == |results|) &&
      (forall i :: k <= i < |r| ==>
        r[i] in fallback && StartsWithIgnoreCase(r[i], trimmed) && r[i] !in ms) &&
      (forall i :: 0 <= i < |r| ==> r[i] != trimmed) &&
      (Distinct(fallback) ==> Distinct(r))
  {
    var all := Combined(ms, fallback, trimmed, max);
    var results := Dedupe(ms, trimmed);
    FillShape(results, Fallbacks(fallback, trimmed, Elements(results)), max);
    CombinedSpec(ms, fallback, trimmed, max);
    var r := Js.Slice(all, 0, max);
    Js.SlicePrefix(all, max);
    if max >= 0 { Js.SliceTake(all, max); }
    var k := if |r| < |results| then |r| else |results|;
    assert r == all[..|r|];
    assert r[..k] == all[..k];
    assert results[..k] == all[..|results|][..k];
    forall i | 0 <= i < |r| ensures r[i] == all[i] {}
  }

  /**
    `r` is `results` topped up from `more`: the results first, then the
    entries of `more` in their order, `max` entries in all, or fewer when
    both run out.
  */
  predicate FilledFrom(r: seq<string>, results: seq<string>, more: seq<string>, max: int) {
    var k := if |r| < |results| then |r| else |results|;
    (max >= 0 ==> |r| == if |results| + |more| <= max then |results| + |more| else max) &&
    r[..k] == results[..k] && (k < |r| ==> k == |results|) &&
    (forall i :: k <= i < |r| ==> i - k < |more| && r[i] == more[i - k])
  }

  /** The merged list is the Markov results topped up with the fallback matches, up to `max` entries. */
  lemma MergeFill(ms: seq<string>, fallback: seq<string>, trimmed: string, max: int)
    ensures var results := Dedupe(ms, trimmed);
      FilledFrom(Merge(ms, fallback, trimmed, max), results, Fallbacks(fallback, trimmed, Elements(results)), max)
  {
    var results := Dedupe(ms, trimmed);
    SliceFill(results, Fallbacks(fallback, trimmed, Elements(results)), max);
  }

  /** Cutting `Fill` to `max` entries keeps the results in front and as many of `more` as fit after them. */
  lemma SliceFill(results: seq<string>, more: seq<string>, max: int)
    ensures FilledFrom(Js.Slice(Fill(results, more, max), 0, max), results, more, max)
  {
    var all := Fill(results, more, max);
    FillShape(results, more, max);
    Js.SlicePrefix(all, max);
    if max >= 0 { Js.SliceTake(all, max); }
    var r := Js.Slice(all, 0, max);
    var k := if |r| < |results| then |r| else |results|;
    assert r == all[..|r|];
    assert r[..k] == all[..k] == results[..k];
    forall i | 0 <= i < |r| ensures r[i] == all[i] {}
  }

  /**
    `getSuggestionsForInput` yields nothing for blank input. Otherwise it
    gives at most `max` strings, none equal to the trimmed input, each a
    Markov suggestion for it or a fallback command that extends it,
    distinct when the fallback list is; `ForInputFill` states how many and
    in which order.
  */
  lemma ForInputSpec(chain: Markov.Chain, fallback: seq<string>, input: string, max: int)
    ensures var r := ForInput(chain, fallback, input, max); var trimmed := Trim(input);
      (AllSpace(input) ==> r == []) &&
      (max >= 0 ==> |r| <= max) &&
      (forall i :: 0 <= i < |r| ==> r[i] != trimmed) &&
      (forall i :: 0 <= i < |r| ==>
        Markov.Allowed(chain, trimmed, r[i]) || (r[i] in fallback && StartsWithIgnoreCase(r[i], trimmed))) &&
      (Distinct(fallback) ==> Distinct(r))
  {
    var trimmed := Trim(input);
    if trimmed != [] {
      var ms := Markov.Suggestions(chain, trimmed, max);
      Markov.SuggestionsSpec(chain, trimmed, max);
      MergeSpec(ms, fallback, trimmed, max);
      MergeAllowed(chain, ms, fallback, trimmed, max);
    }
  }

  /**
    For a non-blank input `getSuggestionsForInput` keeps the deduplicated
    Markov suggestions, in order, and supplements them with the matching
    fallback commands, in order, up to `max` entries.
  */
  lemma ForInputFill(chain: Markov.Chain, fallback: seq<string>, input: string, max: int)
    ensures var trimmed := Trim(input); var results := Dedupe(Markov.Suggestions(chain, trimmed, max), trimmed);
      !AllSpace(input) ==>
        FilledFrom(ForInput(chain, fallback, input, max), results, Fallbacks(fallback, trimmed, Elements(results)), max)
  {
    var trimmed := Trim(input);
    if trimmed != [] {
      MergeFill(Markov.Suggestions(chain, trimmed, max), fallback, trimmed, max);
    }
  }

  /** Every merged entry is a Markov suggestion or a fallback command that extends the input. */
  lemma MergeAllowed(chain: Markov.Chain, ms: seq<string>, fallback: seq<string>, trimmed: string, max: int)
    requires forall i :: 0 <= i < |ms| ==> Markov.Allowed(chain, trimmed, ms[i])
    ensures var r := Merge(ms, fallback, trimmed, max);
      forall i :: 0 <= i < |r| ==>
        Markov.Allowed(chain, trimmed, r[i]) || (r[i] in fallback && StartsWithIgnoreCase(r[i], trimmed))
  {
    MergeSpec(ms, fallback, trimmed, max);
    var r := Merge(ms, fallback, trimmed, max);
    var results := Dedupe(ms, trimmed);
    var k := if |r| < |results| then |r| else |results|;
    forall i | 0 <= i < |r|
      ensures Markov.Allowed(chain, trimmed, r[i]) || (r[i] in fallback && StartsWithIgnoreCase(r[i], trimmed))
    {
      if i < k {
        assert r[..k][i] == results[..k][i];
        DedupeMember(ms, trimmed, results[i]);
        var j :| 0 <= j < |ms| && ms[j] == r[i];
      }
    }
  }

  /** The first loop of `getSuggestionsForInput`. */
  method DedupeSuggestions(ms: seq<string>, trimmed: string) returns (results: seq<string>, seen: set<string>)
    ensures results == Dedupe(ms, trimmed) && seen == Elements(results)
  {
    results, seen := [], {};
    for i := 0 to |ms|
      invariant results == Dedupe(ms[..i], trimmed) && seen == Elements(results)
    {
      var suggestion := ms[i];
      assert ms[..i + 1][..i] == ms[..i];
      if suggestion !in seen && suggestion != trimmed {
        seen := seen + {suggestion};
        results := results + [suggestion];
      }
    }
    assert ms[..|ms|] == ms;
  }

  /** The second loop of `getSuggestionsForInput`: pushes every fallback match. */
  method AppendAll(results0: seq<string>, seen0: set<string>, matches: seq<string>)
    returns (results: seq<string>, seen: set<string>)
    ensures results == results0 + matches && seen == seen0 + Elements(matches)
  {
    results, seen := results0, seen0;
    for i := 0 to |matches|
      invariant results == results0 + matches[..i] && seen == seen0 + Elements(matches[..i])
    {
      assert matches[..i + 1] == matches[..i] + [matches[i]];
      seen := seen + {matches[i]};
      results := results + [matches[i]];
    }
    assert matches[..|matches|] == matches;
  }

  /** The fallback step of `getSuggestionsForInput`: matches fill the slots left, if any. */
  method AddFallbacks(results0: seq<string>, seen0: set<string>, fallback: seq<string>, trimmed: string, max: int)
    returns (results: seq<string>, seen: set<string>)
    ensures results == Fill(results0, Fallbacks(fallback, trimmed, seen0), max)
  {
    results, seen := results0, seen0;
    if |results| < max {
      var remaining := max - |results|;
      var matches := Js.Slice(Fallbacks(fallback, trimmed, seen), 0, remaining);
      results, seen := AppendAll(results, seen, matches);
    }
  }

  /** The cache of chains and the browser storage behind the hook. */
  class ChainStore {
    var cache: map<string, Markov.Chain>
    var storage: map<string, Markov.Chain>

    function State(): Store
      reads this
    {
      Store(cache, storage)
    }

    constructor(storage: map<string, Markov.Chain>)
      ensures State() == Store(map[], storage)
    {
      this.cache := map[];
      this.storage := storage;
    }

    /** `getOrLoadChain`. */
    method GetOrLoadChain(userId: Option<string>) returns (c: Markov.Chain)
      modifies this
      ensures (State(), c) == GetOrLoad(old(State()), userId)
    {
      if !SignedIn(userId) {
        return Markov.EmptyChain();
      }
      var u := userId.value;
      if u !in cache {
        var loaded := Load(storage, u);
        cache := cache[u := loaded];
      }
      c := cache[u];
    }

    /** `chainReducer`. */
    method ChainReducer(state: ChainState, action: ChainAction) returns (r: ChainState)
      modifies this
      ensures (State(), r) == Reduce(old(State()), state, action)
    {
      match action
      case ChangeUser(v) =>
        if v == state.userId {
          return state;
        }
        var c := GetOrLoadChain(v);
        r := ChainState(c, v);
      case AddCommandAction(command, u) =>
        if u == "" {
          return state;
        }
        var c := Markov.AddCommandToChain(state.chain, command);
        cache := cache[u := c];
        storage := storage[u := c];
        r := state.(chain := c);
    }

    /** `getSuggestionsForInput` for the hook's user, fallback list and `maxSuggestions`. */
    method GetSuggestionsForInput(userId: Option<string>, fallback: seq<string>, max: int, input: string)
      returns (r: seq<string>)
      modifies this
      ensures Trim(input) == [] ==> r == [] && State() == old(State())
      ensures Trim(input) != [] ==>
        var (s, chain) := GetOrLoad(old(State()), userId);
        State() == s && r == ForInput(chain, fallback, input, max)
    {
      var trimmed := Trim(input);
      if trimmed == [] {
        return [];
      }
      var chain := Markov.EmptyChain();
      if SignedIn(userId) {
        chain := GetOrLoadChain(userId);
      }
      assert (State(), chain) == GetOrLoad(old(State()), userId);
      var ms := Markov.GetSuggestions(chain, trimmed, max);
      var results, seen := DedupeSuggestions(ms, trimmed);
      results, seen := AddFallbacks(results, seen, fallback, trimmed, max);
      assert results == Combined(ms, fallback, trimmed, max);
      r := Js.Slice(results, 0, max);
    }
  }
}

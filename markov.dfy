/**
  The per-user Markov chain behind command suggestions in the web client
  (web/app/utils/markov.ts). A chain records how often each full command
  was run and, for every token, how often each other token followed it;
  `"__START__"` stands before the first token of a command.

  JavaScript records (`Record<string, V>`) are sequences of key/value pairs
  in insertion order, which is the order `Object.entries` reports them in.
*/
module Markov {
  import opened Wrappers
  import opened Strings
  import Js

  /** The pseudo-token that precedes the first token of every command. */
  const START: string := "__START__"

  type Record<V> = seq<(string, V)>
  type Counts = Record<nat>

  datatype Chain = Chain(transitions: Record<Counts>, commandCounts: Counts)

  /** `createEmptyChain()`. */
  function EmptyChain(): (r: Chain)
    ensures r.transitions == [] && r.commandCounts == []
  {
    Chain([], [])
  }

  function KeySet<V>(a: Record<V>): set<string> {
    if a == [] then {} else {a[0].0} + KeySet(a[1..])
  }

  /** `a[k]`: the value stored under k, if any. */
  function Lookup<V>(a: Record<V>, k: string): (r: Option<V>)
    ensures r.Some? <==> k in KeySet(a)
  {
    if a == [] then None else if a[0].0 == k then Some(a[0].1) else Lookup(a[1..], k)
  }

  predicate UniqueKeys<V>(a: Record<V>) {
    a == [] || (a[0].0 !in KeySet(a[1..]) && UniqueKeys(a[1..]))
  }

  /** `counts[k] || 0`. */
  function Count(c: Counts, k: string): nat {
    match Lookup(c, k)
    case Some(n) => n
    case None => 0
  }

  /** `counts[k] = (counts[k] || 0) + 1`: bumps an existing key in place, or appends a new one. */
  function Bump(c: Counts, k: string): Counts {
    if c == [] then [(k, 1)]
    else if c[0].0 == k then [(k, c[0].1 + 1)] + c[1..]
    else [c[0]] + Bump(c[1..], k)
  }

  /** Bumping k counts k once more and leaves every other key's count alone. */
  lemma {:induction false} BumpCount(c: Counts, k: string, j: string)
    ensures Count(Bump(c, k), j) == Count(c, j) + (if j == k then 1 else 0)
  {
    if c != [] && c[0].0 != k {
      var r := Bump(c, k);
      assert r[1..] == Bump(c[1..], k);
      BumpCount(c[1..], k, j);
    }
  }

  lemma {:induction false} BumpKeys(c: Counts, k: string)
    ensures KeySet(Bump(c, k)) == KeySet(c) + {k}
  {
    if c != [] && c[0].0 != k {
      var r := Bump(c, k);
      assert r[1..] == Bump(c[1..], k);
      BumpKeys(c[1..], k);
    }
  }

  /** `Object.values(counts).reduce((sum, count) => sum + count, 0)`. */
  function Total(c: Counts): nat {
    if c == [] then 0 else c[0].1 + Total(c[1..])
  }

  lemma {:induction false} BumpTotal(c: Counts, k: string)
    ensures Total(Bump(c, k)) == Total(c) + 1
  {
    if c != [] && c[0].0 != k {
      var r := Bump(c, k);
      assert r[1..] == Bump(c[1..], k);
      BumpTotal(c[1..], k);
    }
  }

  lemma {:induction false} BumpUnique(c: Counts, k: string)
    requires UniqueKeys(c)
    ensures UniqueKeys(Bump(c, k))
  {
    if c != [] && c[0].0 != k {
      var r := Bump(c, k);
      assert r[1..] == Bump(c[1..], k);
      BumpUnique(c[1..], k);
      BumpKeys(c[1..], k);
    } else if c != [] {
      var r := Bump(c, k);
      assert r[1..] == c[1..];
    }
  }

  /** `transitions[a] || {}`: the successor counts of a token. */
  function Succ(t: Record<Counts>, a: string): Counts {
    match Lookup(t, a)
    case Some(s) => s
    case None => []
  }

  /** `transitions[a]?.[b] || 0`: how often b followed a. */
  function TransCount(t: Record<Counts>, a: string, b: string): nat {
    Count(Succ(t, a), b)
  }

  /** Creates `transitions[a]` when missing, then bumps `transitions[a][b]`. */
  function BumpPair(t: Record<Counts>, a: string, b: string): Record<Counts> {
    if t == [] then [(a, Bump([], b))]
    else if t[0].0 == a then [(a, Bump(t[0].1, b))] + t[1..]
    else [t[0]] + BumpPair(t[1..], a, b)
  }

  /** Bumping the pair (a, b) counts it once more and leaves every other pair's count alone. */
  lemma {:induction false} BumpPairCount(t: Record<Counts>, a: string, b: string, x: string, y: string)
    ensures TransCount(BumpPair(t, a, b), x, y) == TransCount(t, x, y) + (if x == a && y == b then 1 else 0)
  {
    if t == [] {
      BumpCount([], b, y);
    } else if t[0].0 == a {
      BumpCount(t[0].1, b, y);
    } else {
      var r := BumpPair(t, a, b);
      assert r[1..] == BumpPair(t[1..], a, b);
      BumpPairCount(t[1..], a, b, x, y);
    }
  }

  lemma {:induction false} BumpPairKeys(t: Record<Counts>, a: string, b: string)
    ensures KeySet(BumpPair(t, a, b)) == KeySet(t) + {a}
  {
    if t != [] && t[0].0 != a {
      var r := BumpPair(t, a, b);
      assert r[1..] == BumpPair(t[1..], a, b);
      BumpPairKeys(t[1..], a, b);
    } else if t != [] {
      var r := BumpPair(t, a, b);
      assert r[1..] == t[1..];
    }
  }

  /** No duplicate keys at either level of a chain. */
  predicate WellFormed(chain: Chain) {
    UniqueKeys(chain.commandCounts) && UniqueKeys(chain.transitions) &&
    forall i :: 0 <= i < |chain.transitions| ==> UniqueKeys(chain.transitions[i].1)
  }

  lemma {:induction false} BumpPairUnique(t: Record<Counts>, a: string, b: string)
    requires UniqueKeys(t) && forall i :: 0 <= i < |t| ==> UniqueKeys(t[i].1)
    ensures var r := BumpPair(t, a, b);
      UniqueKeys(r) && forall i :: 0 <= i < |r| ==> UniqueKeys(r[i].1)
  {
    if t == [] {
      BumpUnique([], b);
    } else if t[0].0 == a {
      BumpUnique(t[0].1, b);
      var r := BumpPair(t, a, b);
      assert r[1..] == t[1..];
      forall i | 0 <= i < |r| ensures UniqueKeys(r[i].1) {
        if i > 0 { assert r[i] == t[i]; }
      }
    } else {
      assert forall i :: 0 <= i < |t[1..]| ==> t[1..][i] == t[i + 1];
      BumpPairUnique(t[1..], a, b);
      BumpPairKeys(t[1..], a, b);
      var r := BumpPair(t, a, b);
      assert r[1..] == BumpPair(t[1..], a, b);
      forall i | 0 <= i < |r| ensures UniqueKeys(r[i].1) {
        if i > 0 { assert r[i] == r[1..][i - 1]; }
      }
    }
  }

  /** `tokenizeCommand`: the whitespace-separated tokens of the trimmed command. */
  function Tokenize(command: string): seq<string> {
    Words(Trim(command))
  }

  /**
    Tokens are non-empty and free of whitespace, a blank command has none,
    and joining them with single spaces gives a string with the same
    non-whitespace characters that tokenizes back to the same tokens.
  */
  lemma TokenizeShape(command: string)
    ensures var ts := Tokenize(command);
      (forall i :: 0 <= i < |ts| ==> ts[i] != [] && NoSpace(ts[i])) &&
      (ts == [] <==> AllSpace(command)) &&
      Tokenize(Join(ts, " ")) == ts &&
      Squeeze(Join(ts, " ")) == Squeeze(Trim(command))
  {
    var t := Trim(command);
    var ts := Words(t);
    WordsEmpty(t);
    assert AllSpace(t) <==> t == [] by {
      if t != [] { assert !IsSpace(t[0]); }
    }
    WordsOfJoin(ts);
    var j := Join(ts, " ");
    assert j == [] || (!IsSpace(j[0]) && !IsSpace(j[|j| - 1])) by {
      if ts != [] { JoinEnds(ts); }
    }
    TrimOfTrimmed(j);
    JoinWordsKeepsText(t);
  }

  /** The join of non-empty whitespace-free tokens neither starts nor ends with whitespace. */
  lemma {:induction false} JoinEnds(ts: seq<string>)
    requires |ts| > 0 && forall i :: 0 <= i < |ts| ==> ts[i] != [] && NoSpace(ts[i])
    ensures var j := Join(ts, " "); |j| > 0 && !IsSpace(j[0]) && !IsSpace(j[|j| - 1])
    decreases |ts|
  {
    if |ts| > 1 {
      JoinEnds(ts[1..]);
      var j := Join(ts, " ");
      var rest := Join(ts[1..], " ");
      assert j == ts[0] + " " + rest;
      assert j[0] == ts[0][0];
      assert j[|j| - 1] == rest[|rest| - 1];
    }
  }

  /** The transitions a command contributes: from START to its first token, then between consecutive tokens. */
  function Pairs(tokens: seq<string>): (r: seq<(string, string)>)
    ensures |r| == |tokens|
  {
    if |tokens| == 0 then []
    else [(START, tokens[0])] + seq(|tokens| - 1, i requires 0 <= i < |tokens| - 1 => (tokens[i], tokens[i + 1]))
  }

  /** Bumps every pair, in order. */
  function BumpAll(t: Record<Counts>, ps: seq<(string, string)>): Record<Counts> {
    if ps == [] then t
    else
      var last := ps[|ps| - 1];
      BumpPair(BumpAll(t, ps[..|ps| - 1]), last.0, last.1)
  }

  /** How many times the pair (x, y) occurs in ps. */
  function Occurrences(ps: seq<(string, string)>, x: string, y: string): nat {
    if ps == [] then 0
    else Occurrences(ps[..|ps| - 1], x, y) + (if ps[|ps| - 1] == (x, y) then 1 else 0)
  }

  /** Bumping a list of pairs raises each transition count by its multiplicity in the list. */
  lemma {:induction false} BumpAllCounts(t: Record<Counts>, ps: seq<(string, string)>, x: string, y: string)
    ensures TransCount(BumpAll(t, ps), x, y) == TransCount(t, x, y) + Occurrences(ps, x, y)
    decreases |ps|
  {
    if ps != [] {
      var last := ps[|ps| - 1];
      BumpAllCounts(t, ps[..|ps| - 1], x, y);
      BumpPairCount(BumpAll(t, ps[..|ps| - 1]), last.0, last.1, x, y);
    }
  }

  lemma {:induction false} BumpAllUnique(t: Record<Counts>, ps: seq<(string, string)>)
    requires UniqueKeys(t) && forall i :: 0 <= i < |t| ==> UniqueKeys(t[i].1)
    ensures var r := BumpAll(t, ps);
      UniqueKeys(r) && forall i :: 0 <= i < |r| ==> UniqueKeys(r[i].1)
    decreases |ps|
  {
    if ps != [] {
      BumpAllUnique(t, ps[..|ps| - 1]);
      var last := ps[|ps| - 1];
      BumpPairUnique(BumpAll(t, ps[..|ps| - 1]), last.0, last.1);
    }
  }

  /** `addCommandToChain`, as the value it returns. */
  function AddCommand(chain: Chain, command: string): Chain {
    var trimmed := Trim(command);
    if trimmed == [] then chain
    else Chain(BumpAll(chain.transitions, Pairs(Tokenize(trimmed))), Bump(chain.commandCounts, trimmed))
  }

  /** One more pair of the list was bumped. */
  lemma BumpAllStep(t: Record<Counts>, ps: seq<(string, string)>, k: nat)
    requires k < |ps|
    ensures BumpAll(t, ps[..k + 1]) == BumpPair(BumpAll(t, ps[..k]), ps[k].0, ps[k].1)
  {
    assert ps[..k + 1][..k] == ps[..k];
  }

  lemma PairsAt(tokens: seq<string>, i: nat)
    requires i + 1 < |tokens|
    ensures Pairs(tokens)[0] == (START, tokens[0]) && Pairs(tokens)[i + 1] == (tokens[i], tokens[i + 1])
  {
  }

  /** `addCommandToChain`: copies the chain, bumps the command's count and then each of its transitions. */
  method AddCommandToChain(chain: Chain, command: string) returns (r: Chain)
    ensures r == AddCommand(chain, command)
  {
    var trimmed := Trim(command);
    if trimmed == [] {
      return chain;
    }
    var counts := Bump(chain.commandCounts, trimmed);
    var tokens := Tokenize(trimmed);
    var transitions := BumpTransitions(chain.transitions, tokens);
    r := Chain(transitions, counts);
  }

  /** The loop of `addCommandToChain`: the start transition, then each consecutive pair of tokens. */
  method BumpTransitions(t: Record<Counts>, tokens: seq<string>) returns (r: Record<Counts>)
    ensures r == BumpAll(t, Pairs(tokens))
  {
    ghost var pairs := Pairs(tokens);
    r := t;
    if |tokens| == 0 {
      return;
    }
    r := BumpPair(r, START, tokens[0]);
    BumpAllStep(t, pairs, 0);
    var i := 0;
    while i + 1 < |tokens|
      invariant i < |tokens| && r == BumpAll(t, pairs[..i + 1])
    {
      var current := tokens[i];
      var next := tokens[i + 1];
      r := BumpPair(r, current, next);
      PairsAt(tokens, i);
      BumpAllStep(t, pairs, i + 1);
      i := i + 1;
    }
    assert pairs[..i + 1] == pairs;
  }

  /** A blank or whitespace-only command leaves the chain as it was. */
  lemma AddBlankCommand(chain: Chain, command: string)
    requires AllSpace(command)
    ensures AddCommand(chain, command) == chain
  {
  }

  /**
    Adding a command counts its trimmed form once more, leaves every other
    command's count alone, and so raises the total by exactly one.
  */
  lemma AddCommandCounts(chain: Chain, command: string)
    requires !AllSpace(command)
    ensures var r := AddCommand(chain, command); var trimmed := Trim(command);
      Count(r.commandCounts, trimmed) == Count(chain.commandCounts, trimmed) + 1 &&
      (forall k :: k != trimmed ==> Count(r.commandCounts, k) == Count(chain.commandCounts, k)) &&
      Total(r.commandCounts) == Total(chain.commandCounts) + 1
  {
    BumpTotal(chain.commandCounts, Trim(command));
    BumpCount(chain.commandCounts, Trim(command), Trim(command));
    forall k | k != Trim(command)
      ensures Count(AddCommand(chain, command).commandCounts, k) == Count(chain.commandCounts, k)
    {
      BumpCount(chain.commandCounts, Trim(command), k);
    }
  }

  /**
    Adding a command raises each transition count by the number of times the
    pair occurs among START→first token and the consecutive token pairs.
  */
  lemma AddCommandTransitions(chain: Chain, command: string, x: string, y: string)
    ensures var r := AddCommand(chain, command);
      TransCount(r.transitions, x, y) ==
        TransCount(chain.transitions, x, y) + Occurrences(Pairs(Tokenize(Trim(command))), x, y)
  {
    if Trim(command) != [] {
      BumpAllCounts(chain.transitions, Pairs(Tokenize(Trim(command))), x, y);
    }
  }

  /** Adding commands keeps every record free of duplicate keys. */
  lemma AddCommandWellFormed(chain: Chain, command: string)
    requires WellFormed(chain)
    ensures WellFormed(AddCommand(chain, command))
  {
    if Trim(command) != [] {
      BumpUnique(chain.commandCounts, Trim(command));
      BumpAllUnique(chain.transitions, Pairs(Tokenize(Trim(command))));
    }
  }

  function CountOf(e: (string, nat)): int {
    e.1
  }

  function Keys<V>(a: Record<V>): (r: seq<string>)
    ensures |r| == |a| && forall i :: 0 <= i < |a| ==> r[i] == a[i].0
  {
    seq(|a|, i requires 0 <= i < |a| => a[i].0)
  }

  /** The keys of the first `limit` entries of a successor record, most frequent first. */
  function TopKeys(succ: Counts, limit: int): seq<string> {
    Keys(Js.Slice(Js.SortDesc(succ, CountOf), 0, limit))
  }

  /** `getNextTokens`: the successors of a token, most frequent first, at most `limit` of them. */
  function NextTokens(chain: Chain, token: string, limit: int): seq<string> {
    match Lookup(chain.transitions, token)
    case None => []
    case Some(succ) => TopKeys(succ, limit)
  }

  lemma {:induction false} MemberKey<V>(a: Record<V>, e: (string, V))
    requires e in a
    ensures e.0 in KeySet(a)
  {
    if a[0] != e {
      assert e in a[1..];
      MemberKey(a[1..], e);
    }
  }

  lemma {:induction false} MemberCount(a: Counts, e: (string, nat))
    requires UniqueKeys(a) && e in a
    ensures Count(a, e.0) == e.1
  {
    if a[0] != e {
      assert e in a[1..];
      MemberKey(a[1..], e);
      MemberCount(a[1..], e);
    }
  }

  lemma SuccUnique(chain: Chain, token: string)
    requires WellFormed(chain)
    ensures UniqueKeys(Succ(chain.transitions, token))
  {
    var t := chain.transitions;
    if Lookup(t, token).Some? {
      LookupAt(t, token);
    }
  }

  lemma {:induction false} LookupAt<V>(a: Record<V>, k: string)
    requires Lookup(a, k).Some?
    ensures exists i :: 0 <= i < |a| && a[i] == (k, Lookup(a, k).value)
  {
    if a[0].0 != k {
      LookupAt(a[1..], k);
      var i :| 0 <= i < |a[1..]| && a[1..][i] == (k, Lookup(a, k).value);
      assert a[i + 1] == a[1..][i];
    }
  }

  /** A key of a record is stored with the value `Lookup` finds for it. */
  lemma KeyEntry<V>(a: Record<V>, k: string)
    requires k in KeySet(a)
    ensures (k, Lookup(a, k).value) in a
  {
    LookupAt(a, k);
  }

  lemma KeysMember<V>(a: Record<V>, e: (string, V))
    ensures e in a ==> e.0 in Keys(a)
  {
    if e in a {
      var m :| 0 <= m < |a| && a[m] == e;
      assert Keys(a)[m] == e.0;
    }
  }

  /** In a record without duplicate keys no entry occurs twice. */
  lemma {:induction false} UniqueOnce<V>(a: Record<V>, e: (string, V))
    requires UniqueKeys(a)
    ensures multiset(a)[e] <= 1
  {
    if a != [] {
      assert a == [a[0]] + a[1..];
      UniqueOnce(a[1..], e);
      if a[0] == e && e in a[1..] {
        MemberKey(a[1..], e);
        assert false;
      }
    }
  }

  /** `min(limit, |succ|)` recorded keys, all of them when `limit` reaches `|succ|`. */
  lemma TopKeysShape(succ: Counts, limit: int)
    ensures var r := TopKeys(succ, limit);
      (limit >= 0 ==> |r| == if limit <= |succ| then limit else |succ|) &&
      (limit >= |succ| ==> forall b :: b in KeySet(succ) ==> b in r) &&
      (forall i :: 0 <= i < |r| ==> r[i] in KeySet(succ))
  {
    var r := TopKeys(succ, limit);
    var top := Js.Slice(Js.SortDesc(succ, CountOf), 0, limit);
    assert r == Keys(top);
    Js.TopOfSorted(succ, CountOf, limit);
    forall i | 0 <= i < |r| ensures r[i] in KeySet(succ) {
      MemberKey(succ, top[i]);
    }
    if limit >= |succ| {
      forall b | b in KeySet(succ) ensures b in r {
        KeyEntry(succ, b);
        KeysMember(top, (b, Lookup(succ, b).value));
      }
    }
  }

  /** Over a record without duplicate keys the keys kept are distinct and in non-increasing order of count. */
  lemma TopKeysOrdered(succ: Counts, limit: int)
    requires UniqueKeys(succ)
    ensures var r := TopKeys(succ, limit);
      forall i, j :: 0 <= i < j < |r| ==> Count(succ, r[i]) >= Count(succ, r[j]) && r[i] != r[j]
  {
    var r := TopKeys(succ, limit);
    var sorted := Js.SortDesc(succ, CountOf);
    Js.SortDescCorrect(succ, CountOf);
    var top := Js.Slice(sorted, 0, limit);
    assert r == Keys(top);
    Js.SlicePrefix(sorted, limit);
    Js.TopOfSorted(succ, CountOf, limit);
    forall i, j | 0 <= i < j < |r| ensures Count(succ, r[i]) >= Count(succ, r[j]) && r[i] != r[j] {
      MemberCount(succ, top[i]);
      MemberCount(succ, top[j]);
      assert top[i] == sorted[i] && top[j] == sorted[j];
      if r[i] == r[j] {
        TwiceCounted(sorted, i, j);
        UniqueOnce(succ, sorted[i]);
        assert false;
      }
    }
  }

  /** Over a record without duplicate keys no key left out has a higher count than one kept. */
  lemma TopKeysMostFrequent(succ: Counts, limit: int)
    requires UniqueKeys(succ)
    ensures var r := TopKeys(succ, limit);
      forall b, i :: b in KeySet(succ) && b !in r && 0 <= i < |r| ==> Count(succ, b) <= Count(succ, r[i])
  {
    var r := TopKeys(succ, limit);
    var top := Js.Slice(Js.SortDesc(succ, CountOf), 0, limit);
    assert r == Keys(top);
    Js.TopOfSorted(succ, CountOf, limit);
    forall b, i | b in KeySet(succ) && b !in r && 0 <= i < |r| ensures Count(succ, b) <= Count(succ, r[i]) {
      KeyEntry(succ, b);
      var e := (b, Lookup(succ, b).value);
      KeysMember(top, e);
      assert e in succ && e !in top;
      assert top[i] in succ && top[i].0 == r[i];
      assert CountOf(e) <= CountOf(top[i]);
      MemberCount(succ, e);
      MemberCount(succ, top[i]);
    }
  }

  /**
    `getNextTokens` yields nothing for a token never seen; otherwise the
    first `limit` of its recorded successors (all of them when there are no
    more than `limit`), each once, in non-increasing order of how often it
    followed, and no successor left out followed more often than one kept.
  */
  lemma NextTokensSpec(chain: Chain, token: string, limit: int)
    ensures var r := NextTokens(chain, token, limit);
      (Lookup(chain.transitions, token).None? ==> r == []) &&
      (limit >= 0 ==> |r| <= limit) &&
      (forall i :: 0 <= i < |r| ==> r[i] in KeySet(Succ(chain.transitions, token)))
    ensures var r := NextTokens(chain, token, limit); var succ := Succ(chain.transitions, token);
      (limit >= 0 ==> |r| == if limit <= |succ| then limit else |succ|) &&
      (limit >= |succ| ==> forall b :: b in KeySet(succ) ==> b in r)
    ensures var r := NextTokens(chain, token, limit); var t := chain.transitions;
      WellFormed(chain) ==>
        (forall i, j :: 0 <= i < j < |r| ==>
          TransCount(t, token, r[i]) >= TransCount(t, token, r[j]) && r[i] != r[j]) &&
        (forall b, i :: b in KeySet(Succ(t, token)) && b !in r && 0 <= i < |r| ==>
          TransCount(t, token, b) <= TransCount(t, token, r[i]))
  {
    match Lookup(chain.transitions, token)
    case None =>
    case Some(succ) =>
      assert NextTokens(chain, token, limit) == TopKeys(succ, limit);
      TopKeysShape(succ, limit);
      if WellFormed(chain) {
        SuccUnique(chain, token);
        TopKeysOrdered(succ, limit);
        TopKeysMostFrequent(succ, limit);
      }
  }

  // ---------------------------------------------------------------------
  // getSuggestions

  datatype Scored = Scored(command: string, score: int)

  /** The suggestions pushed so far and the `seenCommands` set. */
  datatype Acc = Acc(items: seq<Scored>, seen: set<string>)

  function ScoreOf(s: Scored): int {
    s.score
  }

  /** Pushes a suggestion unless its command was seen already. */
  function Offer(acc: Acc, command: string, score: int): Acc {
    if command in acc.seen then acc
    else Acc(acc.items + [Scored(command, score)], acc.seen + {command})
  }

  /** Strategy 1: every recorded command that extends the input, scored by 100 times its count. */
  function Direct(acc: Acc, entries: Counts, trimmed: string): Acc {
    if entries == [] then acc
    else
      var a := Direct(acc, entries[..|entries| - 1], trimmed);
      var e := entries[|entries| - 1];
      if StartsWithIgnoreCase(e.0, trimmed) && e.0 != trimmed then Offer(a, e.0, e.1 * 100) else a
  }

  function Last(tokens: seq<string>): string
    requires |tokens| > 0
  {
    tokens[|tokens| - 1]
  }

  /** `tokens.slice(0, -1).join(" ")`. */
  function Prefix(tokens: seq<string>): string
    requires |tokens| > 0
  {
    Join(tokens[..|tokens| - 1], " ")
  }

  /** The token before the last one, or START for a one-token input. */
  function Prev(tokens: seq<string>): string
    requires |tokens| > 0
  {
    if |tokens| > 1 then tokens[|tokens| - 2] else START
  }

  /** The input with its last token replaced by a candidate. */
  function Completion(prefix: string, candidate: string): string {
    if prefix != [] then prefix + " " + candidate else candidate
  }

  /** Strategy 2: successors of the previous token that extend the last token, scored by 10 times their count. */
  function Complete(acc: Acc, cands: seq<string>, chain: Chain, tokens: seq<string>): Acc
    requires |tokens| > 0
  {
    if cands == [] then acc
    else
      var a := Complete(acc, cands[..|cands| - 1], chain, tokens);
      var c := cands[|cands| - 1];
      if StartsWithIgnoreCase(c, Last(tokens)) && c != Last(tokens) then
        Offer(a, Completion(Prefix(tokens), c), TransCount(chain.transitions, Prev(tokens), c) * 10)
      else a
  }

  /** Strategy 3: the input followed by a successor of its last token, scored by that count. */
  function Extend(acc: Acc, nexts: seq<string>, chain: Chain, trimmed: string, last: string): Acc {
    if nexts == [] then acc
    else
      var a := Extend(acc, nexts[..|nexts| - 1], chain, trimmed, last);
      var t := nexts[|nexts| - 1];
      Offer(a, trimmed + " " + t, TransCount(chain.transitions, last, t))
  }

  /** Whether strategy 3 runs: the raw input ends with a space or its last token has successors. */
  predicate ExtendsInput(chain: Chain, input: string, last: string) {
    EndsWith(input, " ") || Lookup(chain.transitions, last).Some?
  }

  /** The scored suggestions of the three strategies, in the order they were pushed. */
  function Candidates(chain: Chain, input: string): seq<Scored> {
    CandidateAcc(chain, input).items
  }

  /** The suggestions and the seen set after the three strategies. */
  function CandidateAcc(chain: Chain, input: string): Acc {
    var trimmed := Trim(input);
    var a1 := Direct(Acc([], {}), chain.commandCounts, trimmed);
    var tokens := Tokenize(trimmed);
    if |tokens| == 0 then a1
    else
      var a2 := Complete(a1, NextTokens(chain, Prev(tokens), 20), chain, tokens);
      if ExtendsInput(chain, input, Last(tokens))
      then Extend(a2, NextTokens(chain, Last(tokens), 10), chain, trimmed, Last(tokens))
      else a2
  }

  function Commands(items: seq<Scored>): (r: seq<string>)
    ensures |r| == |items| && forall i :: 0 <= i < |items| ==> r[i] == items[i].command
  {
    seq(|items|, i requires 0 <= i < |items| => items[i].command)
  }

  /** `getSuggestions`, as the value it returns. */
  function Suggestions(chain: Chain, input: string, limit: int): seq<string> {
    if Trim(input) == [] then []
    else Commands(Js.Slice(Js.SortDesc(Candidates(chain, input), ScoreOf), 0, limit))
  }

  /** Strategy 1 of `getSuggestions`: the loop over the recorded commands. */
  method DirectMatches(entries: Counts, trimmed: string) returns (suggestions: seq<Scored>, seen: set<string>)
    ensures Acc(suggestions, seen) == Direct(Acc([], {}), entries, trimmed)
  {
    suggestions, seen := [], {};
    for i := 0 to |entries|
      invariant Acc(suggestions, seen) == Direct(Acc([], {}), entries[..i], trimmed)
    {
      var (command, count) := entries[i];
      assert entries[..i + 1][..i] == entries[..i];
      if StartsWithIgnoreCase(command, trimmed) && command != trimmed {
        if command !in seen {
          seen := seen + {command};
          suggestions := suggestions + [Scored(command, count * 100)];
        }
      }
    }
    assert entries[..|entries|] == entries;
  }

  /** Strategy 2 of `getSuggestions`: the loop over the candidates for the last token. */
  method CompleteLast(chain: Chain, tokens: seq<string>, candidates: seq<string>, suggestions0: seq<Scored>, seen0: set<string>)
    returns (suggestions: seq<Scored>, seen: set<string>)
    requires |tokens| > 0
    ensures Acc(suggestions, seen) == Complete(Acc(suggestions0, seen0), candidates, chain, tokens)
  {
    var lastToken := tokens[|tokens| - 1];
    var prefix := Join(tokens[..|tokens| - 1], " ");
    var prevToken := if |tokens| > 1 then tokens[|tokens| - 2] else START;
    suggestions, seen := suggestions0, seen0;
    for i := 0 to |candidates|
      invariant Acc(suggestions, seen) == Complete(Acc(suggestions0, seen0), candidates[..i], chain, tokens)
    {
      var candidate := candidates[i];
      assert candidates[..i + 1][..i] == candidates[..i];
      if StartsWithIgnoreCase(candidate, lastToken) && candidate != lastToken {
        var completion := if prefix != [] then prefix + " " + candidate else candidate;
        if completion !in seen {
          seen := seen + {completion};
          var score := TransCount(chain.transitions, prevToken, candidate);
          suggestions := suggestions + [Scored(completion, score * 10)];
        }
      }
    }
    assert candidates[..|candidates|] == candidates;
  }

  /** Strategy 3 of `getSuggestions`: the loop over the likely next tokens. */
  method ExtendInput(chain: Chain, trimmed: string, lastToken: string, nextTokens: seq<string>, suggestions0: seq<Scored>, seen0: set<string>)
    returns (suggestions: seq<Scored>, seen: set<string>)
    ensures Acc(suggestions, seen) == Extend(Acc(suggestions0, seen0), nextTokens, chain, trimmed, lastToken)
  {
    suggestions, seen := suggestions0, seen0;
    for i := 0 to |nextTokens|
      invariant Acc(suggestions, seen) == Extend(Acc(suggestions0, seen0), nextTokens[..i], chain, trimmed, lastToken)
    {
      var nextToken := nextTokens[i];
      assert nextTokens[..i + 1][..i] == nextTokens[..i];
      var completion := trimmed + " " + nextToken;
      if completion !in seen {
        seen := seen + {completion};
        var score := TransCount(chain.transitions, lastToken, nextToken);
        suggestions := suggestions + [Scored(completion, score)];
      }
    }
    assert nextTokens[..|nextTokens|] == nextTokens;
  }

  /** `getSuggestions`: runs the three strategies, then ranks by score and keeps the first `limit`. */
  method GetSuggestions(chain: Chain, input: string, limit: int) returns (r: seq<string>)
    ensures r == Suggestions(chain, input, limit)
  {
    var trimmed := Trim(input);
    if trimmed == [] {
      return [];
    }
    var suggestions := CollectCandidates(chain, input, trimmed);
    var ranked := Js.SortDesc(suggestions, ScoreOf);
    r := Commands(Js.Slice(ranked, 0, limit));
  }

  /** The three strategies of `getSuggestions`, run one after another on a non-blank input. */
  method CollectCandidates(chain: Chain, input: string, trimmed: string) returns (suggestions: seq<Scored>)
    requires trimmed == Trim(input)
    ensures suggestions == Candidates(chain, input)
  {
    var seen;
    suggestions, seen := DirectMatches(chain.commandCounts, trimmed);
    var tokens := Tokenize(trimmed);
    if |tokens| > 0 {
      var lastToken := tokens[|tokens| - 1];
      var prevToken := if |tokens| > 1 then tokens[|tokens| - 2] else START;
      assert lastToken == Last(tokens) && prevToken == Prev(tokens);
      var candidates := NextTokens(chain, prevToken, 20);
      suggestions, seen := CompleteLast(chain, tokens, candidates, suggestions, seen);
      ghost var a2 := Acc(suggestions, seen);
      if EndsWith(input, " ") || Lookup(chain.transitions, lastToken).Some? {
        var nextTokens := NextTokens(chain, lastToken, 10);
        suggestions, seen := ExtendInput(chain, trimmed, lastToken, nextTokens, suggestions, seen);
        assert Acc(suggestions, seen) == Extend(a2, NextTokens(chain, Last(tokens), 10), chain, trimmed, Last(tokens));
      }
    }
  }

  // Properties of the suggestions.

  function CommandSet(items: seq<Scored>): set<string> {
    set i | 0 <= i < |items| :: items[i].command
  }

  predicate DistinctCommands(items: seq<Scored>) {
    forall i, j :: 0 <= i < j < |items| ==> items[i].command != items[j].command
  }

  /** The seen set is exactly the commands pushed, and none was pushed twice. */
  predicate AccInv(acc: Acc) {
    acc.seen == CommandSet(acc.items) && DistinctCommands(acc.items)
  }

  /** A recorded command that extends the trimmed input without being it. */
  predicate IsDirect(chain: Chain, trimmed: string, s: string) {
    s in KeySet(chain.commandCounts) && StartsWithIgnoreCase(s, trimmed) && s != trimmed
  }

  /** The input with its last token replaced by a different successor of the previous token that extends it. */
  predicate IsCompletion(chain: Chain, tokens: seq<string>, s: string)
    requires |tokens| > 0
  {
    exists c :: c in KeySet(Succ(chain.transitions, Prev(tokens))) &&
      StartsWithIgnoreCase(c, Last(tokens)) && c != Last(tokens) && s == Completion(Prefix(tokens), c)
  }

  /** The trimmed input, a space and a successor of its last token. */
  predicate IsExtension(chain: Chain, trimmed: string, last: string, s: string) {
    exists t :: t in KeySet(Succ(chain.transitions, last)) && s == trimmed + " " + t
  }

  /** What a suggestion for an input can be. */
  predicate Allowed(chain: Chain, input: string, s: string) {
    var trimmed := Trim(input);
    var tokens := Tokenize(trimmed);
    IsDirect(chain, trimmed, s) ||
    (|tokens| > 0 && (IsCompletion(chain, tokens, s) || IsExtension(chain, trimmed, Last(tokens), s)))
  }

  predicate AllAllowed(items: seq<Scored>, chain: Chain, input: string) {
    forall i :: 0 <= i < |items| ==> Allowed(chain, input, items[i].command)
  }

  lemma OfferKeeps(acc: Acc, command: string, score: int, chain: Chain, input: string)
    requires AccInv(acc) && AllAllowed(acc.items, chain, input)
    requires command !in acc.seen ==> Allowed(chain, input, command)
    ensures AccInv(Offer(acc, command, score)) && AllAllowed(Offer(acc, command, score).items, chain, input)
  {
    if command !in acc.seen {
      var x := Scored(command, score);
      CommandSetAppend(acc.items, x);
      DistinctAppend(acc.items, x);
      AllowedAppend(acc.items, x, chain, input);
    }
  }

  lemma CommandSetAppend(items: seq<Scored>, x: Scored)
    ensures CommandSet(items + [x]) == CommandSet(items) + {x.command}
  {
    var all := items + [x];
    forall c | c in CommandSet(all) ensures c in CommandSet(items) + {x.command} {
      var i :| 0 <= i < |all| && all[i].command == c;
      if i < |items| { assert all[i] == items[i]; }
    }
    forall c | c in CommandSet(items) ensures c in CommandSet(all) {
      var i :| 0 <= i < |items| && items[i].command == c;
      assert all[i] == items[i];
    }
    assert all[|items|].command == x.command;
  }

  lemma DistinctAppend(items: seq<Scored>, x: Scored)
    requires DistinctCommands(items) && x.command !in CommandSet(items)
    ensures DistinctCommands(items + [x])
  {
    var all := items + [x];
    forall i, j | 0 <= i < j < |all| ensures all[i].command != all[j].command {
      assert all[i] == items[i];
      if j < |items| {
        assert all[j] == items[j];
      } else {
        assert items[i].command in CommandSet(items);
      }
    }
  }

  lemma AllowedAppend(items: seq<Scored>, x: Scored, chain: Chain, input: string)
    requires AllAllowed(items, chain, input) && Allowed(chain, input, x.command)
    ensures AllAllowed(items + [x], chain, input)
  {
    var all := items + [x];
    forall i | 0 <= i < |all| ensures Allowed(chain, input, all[i].command) {
      if i < |items| {
        assert all[i].command == items[i].command;
      } else {
        assert all[i].command == x.command;
      }
    }
  }

  lemma {:induction false} DirectKeeps(acc: Acc, entries: Counts, chain: Chain, input: string)
    requires |entries| <= |chain.commandCounts| && entries == chain.commandCounts[..|entries|]
    requires AccInv(acc) && AllAllowed(acc.items, chain, input)
    ensures var r := Direct(acc, entries, Trim(input)); AccInv(r) && AllAllowed(r.items, chain, input)
    decreases |entries|
  {
    if entries != [] {
      var n := |entries| - 1;
      var trimmed := Trim(input);
      assert entries[..n] == chain.commandCounts[..n];
      DirectKeeps(acc, entries[..n], chain, input);
      var e := entries[n];
      assert e in chain.commandCounts by {
        assert e == chain.commandCounts[n];
      }
      MemberKey(chain.commandCounts, e);
      if StartsWithIgnoreCase(e.0, trimmed) && e.0 != trimmed {
        OfferKeeps(Direct(acc, entries[..n], trimmed), e.0, e.1 * 100, chain, input);
      }
    }
  }

  lemma {:induction false} CompleteKeeps(acc: Acc, cands: seq<string>, chain: Chain, input: string)
    requires |Tokenize(Trim(input))| > 0
    requires forall i :: 0 <= i < |cands| ==> cands[i] in KeySet(Succ(chain.transitions, Prev(Tokenize(Trim(input)))))
    requires AccInv(acc) && AllAllowed(acc.items, chain, input)
    ensures var r := Complete(acc, cands, chain, Tokenize(Trim(input)));
      AccInv(r) && AllAllowed(r.items, chain, input)
    decreases |cands|
  {
    if cands != [] {
      var tokens := Tokenize(Trim(input));
      var n := |cands| - 1;
      CompleteKeeps(acc, cands[..n], chain, input);
      var c := cands[n];
      if StartsWithIgnoreCase(c, Last(tokens)) && c != Last(tokens) {
        var s := Completion(Prefix(tokens), c);
        assert IsCompletion(chain, tokens, s);
        OfferKeeps(Complete(acc, cands[..n], chain, tokens), s,
          TransCount(chain.transitions, Prev(tokens), c) * 10, chain, input);
      }
    }
  }

  lemma {:induction false} ExtendKeeps(acc: Acc, nexts: seq<string>, chain: Chain, input: string)
    requires |Tokenize(Trim(input))| > 0
    requires forall i :: 0 <= i < |nexts| ==> nexts[i] in KeySet(Succ(chain.transitions, Last(Tokenize(Trim(input)))))
    requires AccInv(acc) && AllAllowed(acc.items, chain, input)
    ensures var r := Extend(acc, nexts, chain, Trim(input), Last(Tokenize(Trim(input))));
      AccInv(r) && AllAllowed(r.items, chain, input)
    decreases |nexts|
  {
    if nexts != [] {
      var tokens := Tokenize(Trim(input));
      var trimmed := Trim(input);
      var n := |nexts| - 1;
      ExtendKeeps(acc, nexts[..n], chain, input);
      var t := nexts[n];
      var s := trimmed + " " + t;
      assert IsExtension(chain, trimmed, Last(tokens), s);
      OfferKeeps(Extend(acc, nexts[..n], chain, trimmed, Last(tokens)), s,
        TransCount(chain.transitions, Last(tokens), t), chain, input);
    }
  }

  /** The seen set of the three strategies is their commands, none pushed twice, each allowed. */
  lemma CandidateAccInv(chain: Chain, input: string)
    ensures AccInv(CandidateAcc(chain, input)) && AllAllowed(CandidateAcc(chain, input).items, chain, input)
  {
    var trimmed := Trim(input);
    var a0 := Acc([], {});
    assert AccInv(a0);
    assert chain.commandCounts[..|chain.commandCounts|] == chain.commandCounts;
    DirectKeeps(a0, chain.commandCounts, chain, input);
    var a1 := Direct(a0, chain.commandCounts, trimmed);
    var tokens := Tokenize(trimmed);
    if |tokens| > 0 {
      var cands := NextTokens(chain, Prev(tokens), 20);
      NextTokensSpec(chain, Prev(tokens), 20);
      CompleteKeeps(a1, cands, chain, input);
      var a2 := Complete(a1, cands, chain, tokens);
      if ExtendsInput(chain, input, Last(tokens)) {
        NextTokensSpec(chain, Last(tokens), 10);
        ExtendKeeps(a2, NextTokens(chain, Last(tokens), 10), chain, input);
      }
    }
  }

  /** Every candidate is a direct match, a completion or an extension, and no command is pushed twice. */
  lemma CandidatesAllowed(chain: Chain, input: string)
    ensures DistinctCommands(Candidates(chain, input))
    ensures AllAllowed(Candidates(chain, input), chain, input)
  {
    CandidateAccInv(chain, input);
  }

  /** Strategy 1 adds every entry that extends the trimmed input to the seen set, and removes nothing from it. */
  lemma {:induction false} DirectSeen(acc: Acc, entries: Counts, trimmed: string)
    ensures var r := Direct(acc, entries, trimmed);
      acc.seen <= r.seen &&
      forall i :: 0 <= i < |entries| && StartsWithIgnoreCase(entries[i].0, trimmed) && entries[i].0 != trimmed ==>
        entries[i].0 in r.seen
    decreases |entries|
  {
    if entries != [] {
      var n := |entries| - 1;
      DirectSeen(acc, entries[..n], trimmed);
      assert forall i :: 0 <= i < n ==> entries[..n][i] == entries[i];
    }
  }

  /** Strategy 2 adds the completion of every candidate that extends the last token, and removes nothing. */
  lemma {:induction false} CompleteSeen(acc: Acc, cands: seq<string>, chain: Chain, tokens: seq<string>)
    requires |tokens| > 0
    ensures var r := Complete(acc, cands, chain, tokens);
      acc.seen <= r.seen &&
      forall i :: 0 <= i < |cands| && StartsWithIgnoreCase(cands[i], Last(tokens)) && cands[i] != Last(tokens) ==>
        Completion(Prefix(tokens), cands[i]) in r.seen
    decreases |cands|
  {
    if cands != [] {
      var n := |cands| - 1;
      CompleteSeen(acc, cands[..n], chain, tokens);
      assert forall i :: 0 <= i < n ==> cands[..n][i] == cands[i];
      var a := Complete(acc, cands[..n], chain, tokens);
      assert Complete(acc, cands, chain, tokens).seen >= a.seen;
    }
  }

  /** Strategy 3 adds the extension by every next token, and removes nothing. */
  lemma {:induction false} ExtendSeen(acc: Acc, nexts: seq<string>, chain: Chain, trimmed: string, last: string)
    ensures var r := Extend(acc, nexts, chain, trimmed, last);
      acc.seen <= r.seen &&
      forall i :: 0 <= i < |nexts| ==> trimmed + " " + nexts[i] in r.seen
    decreases |nexts|
  {
    if nexts != [] {
      var n := |nexts| - 1;
      ExtendSeen(acc, nexts[..n], chain, trimmed, last);
      assert forall i :: 0 <= i < n ==> nexts[..n][i] == nexts[i];
    }
  }

  /** Strategies 2 and 3 remove nothing from the seen set of strategy 1. */
  lemma LaterStagesKeepSeen(chain: Chain, input: string)
    ensures Direct(Acc([], {}), chain.commandCounts, Trim(input)).seen <= CandidateAcc(chain, input).seen
  {
    var trimmed := Trim(input);
    var a1 := Direct(Acc([], {}), chain.commandCounts, trimmed);
    var tokens := Tokenize(trimmed);
    if |tokens| > 0 {
      var cands := NextTokens(chain, Prev(tokens), 20);
      CompleteSeen(a1, cands, chain, tokens);
      if ExtendsInput(chain, input, Last(tokens)) {
        ExtendSeen(Complete(a1, cands, chain, tokens), NextTokens(chain, Last(tokens), 10), chain, trimmed, Last(tokens));
      }
    }
  }

  /** Every recorded command that extends the trimmed input without being it ends up seen. */
  lemma DirectCandidates(chain: Chain, input: string)
    ensures forall s :: IsDirect(chain, Trim(input), s) ==> s in CandidateAcc(chain, input).seen
  {
    DirectKeysSeen(chain.commandCounts, Trim(input));
    LaterStagesKeepSeen(chain, input);
  }

  /** Strategy 1 on its own sees every recorded command that extends the trimmed input without being it. */
  lemma DirectKeysSeen(counts: Counts, trimmed: string)
    ensures forall s :: s in KeySet(counts) && StartsWithIgnoreCase(s, trimmed) && s != trimmed ==>
      s in Direct(Acc([], {}), counts, trimmed).seen
  {
    DirectSeen(Acc([], {}), counts, trimmed);
    forall s | s in KeySet(counts) && StartsWithIgnoreCase(s, trimmed) && s != trimmed
      ensures s in Direct(Acc([], {}), counts, trimmed).seen
    {
      KeyEntry(counts, s);
      var k :| 0 <= k < |counts| && counts[k] == (s, Lookup(counts, s).value);
      assert counts[k].0 == s;
    }
  }

  /** The completion by every fetched successor of the previous token that extends the last one ends up seen. */
  lemma CompletionCandidates(chain: Chain, input: string)
    ensures var tokens := Tokenize(Trim(input));
      |tokens| > 0 ==>
        forall c :: c in NextTokens(chain, Prev(tokens), 20) && StartsWithIgnoreCase(c, Last(tokens)) && c != Last(tokens) ==>
          Completion(Prefix(tokens), c) in CandidateAcc(chain, input).seen
  {
    var trimmed := Trim(input);
    var tokens := Tokenize(trimmed);
    if |tokens| > 0 {
      var a1 := Direct(Acc([], {}), chain.commandCounts, trimmed);
      var cands := NextTokens(chain, Prev(tokens), 20);
      CompleteSeen(a1, cands, chain, tokens);
      var a2 := Complete(a1, cands, chain, tokens);
      if ExtendsInput(chain, input, Last(tokens)) {
        ExtendSeen(a2, NextTokens(chain, Last(tokens), 10), chain, trimmed, Last(tokens));
      }
      forall c | c in cands && StartsWithIgnoreCase(c, Last(tokens)) && c != Last(tokens)
        ensures Completion(Prefix(tokens), c) in a2.seen
      {
        var k :| 0 <= k < |cands| && cands[k] == c;
      }
    }
  }

  /** When strategy 3 runs, the extension by every fetched next token ends up seen. */
  lemma ExtensionCandidates(chain: Chain, input: string)
    ensures var tokens := Tokenize(Trim(input));
      |tokens| > 0 && ExtendsInput(chain, input, Last(tokens)) ==>
        forall t :: t in NextTokens(chain, Last(tokens), 10) ==> Trim(input) + " " + t in CandidateAcc(chain, input).seen
  {
    var trimmed := Trim(input);
    var tokens := Tokenize(trimmed);
    if |tokens| > 0 && ExtendsInput(chain, input, Last(tokens)) {
      var a1 := Direct(Acc([], {}), chain.commandCounts, trimmed);
      var a2 := Complete(a1, NextTokens(chain, Prev(tokens), 20), chain, tokens);
      var nexts := NextTokens(chain, Last(tokens), 10);
      ExtendSeen(a2, nexts, chain, trimmed, Last(tokens));
      forall t | t in nexts ensures trimmed + " " + t in Extend(a2, nexts, chain, trimmed, Last(tokens)).seen {
        var k :| 0 <= k < |nexts| && nexts[k] == t;
      }
    }
  }

  /**
    Nothing a strategy looks at is lost: every recorded command that
    extends the trimmed input, the completion by every fetched successor
    of the previous token that extends the last one, and (when strategy 3
    runs) the extension by every fetched next token are all candidates.
  */
  lemma CandidatesComplete(chain: Chain, input: string)
    ensures forall s :: IsDirect(chain, Trim(input), s) ==> s in CommandSet(Candidates(chain, input))
    ensures var tokens := Tokenize(Trim(input));
      |tokens| > 0 ==>
        forall c :: c in NextTokens(chain, Prev(tokens), 20) && StartsWithIgnoreCase(c, Last(tokens)) && c != Last(tokens) ==>
          Completion(Prefix(tokens), c) in CommandSet(Candidates(chain, input))
    ensures var tokens := Tokenize(Trim(input));
      |tokens| > 0 && ExtendsInput(chain, input, Last(tokens)) ==>
        forall t :: t in NextTokens(chain, Last(tokens), 10) ==> Trim(input) + " " + t in CommandSet(Candidates(chain, input))
  {
    CandidateAccInv(chain, input);
    DirectCandidates(chain, input);
    CompletionCandidates(chain, input);
    ExtensionCandidates(chain, input);
  }

  /** Reordering a list with distinct commands keeps them distinct. */
  lemma PermutationDistinct(a: seq<Scored>, b: seq<Scored>)
    requires multiset(a) == multiset(b) && DistinctCommands(a)
    ensures DistinctCommands(b)
  {
    forall i, j | 0 <= i < j < |b| ensures b[i].command != b[j].command {
      Js.PermutationMember(b, a, i);
      Js.PermutationMember(b, a, j);
      var p :| 0 <= p < |a| && a[p] == b[i];
      var q :| 0 <= q < |a| && a[q] == b[j];
      AtMostOnce(a, b[i]);
      if p == q {
        TwiceCounted(b, i, j);
        assert false;
      }
    }
  }

  lemma TwiceCounted<T>(b: seq<T>, i: nat, j: nat)
    requires i < j < |b| && b[i] == b[j]
    ensures multiset(b)[b[i]] >= 2
  {
    assert b == b[..j] + [b[j]] + b[j + 1..];
    assert b[i] in b[..j];
  }

  lemma {:induction false} AtMostOnce(a: seq<Scored>, e: Scored)
    requires DistinctCommands(a)
    ensures multiset(a)[e] <= 1
  {
    if a != [] {
      assert a == [a[0]] + a[1..];
      AtMostOnce(a[1..], e);
      if a[0] == e {
        forall k | 0 <= k < |a[1..]| ensures a[1..][k] != e {
          assert a[1..][k] == a[k + 1];
        }
      }
    }
  }

  /**
    `getSuggestions` yields nothing for blank input; otherwise at most
    `limit` distinct strings, each a direct match, a completion or an
    extension of the input.
  */
  lemma SuggestionsSpec(chain: Chain, input: string, limit: int)
    ensures var r := Suggestions(chain, input, limit);
      (AllSpace(input) ==> r == []) &&
      (limit >= 0 ==> |r| <= limit) &&
      (forall i, j :: 0 <= i < j < |r| ==> r[i] != r[j]) &&
      (forall i :: 0 <= i < |r| ==> Allowed(chain, input, r[i]))
  {
    if Trim(input) != [] {
      var cands := Candidates(chain, input);
      CandidatesAllowed(chain, input);
      var ranked := Js.SortDesc(cands, ScoreOf);
      Js.SortDescCorrect(cands, ScoreOf);
      TopAllowed(chain, input, cands, ranked, limit);
    }
  }

  /** The first `limit` of a reordering of allowed, distinct candidates are allowed and distinct. */
  lemma TopAllowed(chain: Chain, input: string, cands: seq<Scored>, ranked: seq<Scored>, limit: int)
    requires DistinctCommands(cands) && AllAllowed(cands, chain, input)
    requires multiset(ranked) == multiset(cands)
    ensures var r := Commands(Js.Slice(ranked, 0, limit));
      (limit >= 0 ==> |r| <= limit) &&
      (forall i, j :: 0 <= i < j < |r| ==> r[i] != r[j]) &&
      (forall i :: 0 <= i < |r| ==> Allowed(chain, input, r[i]))
  {
    PermutationDistinct(cands, ranked);
    var top := Js.Slice(ranked, 0, limit);
    Js.SlicePrefix(ranked, limit);
    if limit >= 0 { Js.SliceTake(ranked, limit); }
    forall i | 0 <= i < |top| ensures Allowed(chain, input, top[i].command) {
      assert top[i] == ranked[i];
      Js.PermutationMember(ranked, cands, i);
    }
    forall i, j | 0 <= i < j < |top| ensures top[i].command != top[j].command {
      assert top[i] == ranked[i] && top[j] == ranked[j];
    }
  }

  /** The suggestions are the first `limit` candidates after ranking them by non-increasing score. */
  lemma SuggestionsRanked(chain: Chain, input: string, limit: int)
    requires !AllSpace(input)
    ensures var ranked := Js.SortDesc(Candidates(chain, input), ScoreOf);
      Js.SortedDesc(ranked, ScoreOf) &&
      multiset(ranked) == multiset(Candidates(chain, input)) &&
      Suggestions(chain, input, limit) == Commands(Js.Slice(ranked, 0, limit))
  {
    Js.SortDescCorrect(Candidates(chain, input), ScoreOf);
  }

  /** Two candidates with the same command are the same candidate. */
  lemma SameCommand(items: seq<Scored>, x: Scored, y: Scored)
    requires DistinctCommands(items) && x in items && y in items && x.command == y.command
    ensures x == y
  {
    var p :| 0 <= p < |items| && items[p] == x;
    var q :| 0 <= q < |items| && items[q] == y;
    assert p == q;
  }

  lemma CommandsMember(items: seq<Scored>, x: Scored)
    ensures x in items ==> x.command in Commands(items)
  {
    if x in items {
      var m :| 0 <= m < |items| && items[m] == x;
      assert Commands(items)[m] == x.command;
    }
  }

  /**
    Ranking candidates with distinct commands and keeping the first `limit`
    keeps `min(limit, n)` of the `n`, all of them when `limit` reaches `n`,
    and no candidate left out scores higher than one kept.
  */
  lemma RankedTop(cands: seq<Scored>, limit: int)
    requires DistinctCommands(cands)
    ensures var r := Commands(Js.Slice(Js.SortDesc(cands, ScoreOf), 0, limit));
      (limit >= 0 ==> |r| == if limit <= |cands| then limit else |cands|) &&
      (limit >= |cands| ==> forall c :: c in cands ==> c.command in r) &&
      (forall c, d :: c in cands && d in cands && c.command !in r && d.command in r ==> c.score <= d.score)
  {
    RankedShape(cands, limit);
    RankedScores(cands, limit);
  }

  /** Ranking keeps `min(limit, n)` of the `n` candidates, all of them when `limit` reaches `n`. */
  lemma RankedShape(cands: seq<Scored>, limit: int)
    ensures var r := Commands(Js.Slice(Js.SortDesc(cands, ScoreOf), 0, limit));
      (limit >= 0 ==> |r| == if limit <= |cands| then limit else |cands|) &&
      (limit >= |cands| ==> forall c :: c in cands ==> c.command in r)
  {
    var top := Js.Slice(Js.SortDesc(cands, ScoreOf), 0, limit);
    Js.TopOfSorted(cands, ScoreOf, limit);
    if limit >= |cands| {
      forall c | c in cands ensures c.command in Commands(top) {
        CommandsMember(top, c);
      }
    }
  }

  /** Over candidates with distinct commands no candidate left out by ranking scores higher than one kept. */
  lemma RankedScores(cands: seq<Scored>, limit: int)
    requires DistinctCommands(cands)
    ensures var r := Commands(Js.Slice(Js.SortDesc(cands, ScoreOf), 0, limit));
      forall c, d :: c in cands && d in cands && c.command !in r && d.command in r ==> c.score <= d.score
  {
    var top := Js.Slice(Js.SortDesc(cands, ScoreOf), 0, limit);
    Js.TopOfSorted(cands, ScoreOf, limit);
    var r := Commands(top);
    forall c, d | c in cands && d in cands && c.command !in r && d.command in r ensures c.score <= d.score {
      var i :| 0 <= i < |r| && r[i] == d.command;
      assert top[i] in cands && top[i].command == d.command;
      SameCommand(cands, top[i], d);
      CommandsMember(top, c);
      assert c !in top;
      assert ScoreOf(c) <= ScoreOf(top[i]);
    }
  }

  /**
    For a non-blank input the suggestions are `min(limit, n)` of the `n`
    candidates (all of them when `limit` reaches `n`), and no candidate
    left out scores higher than one suggested.
  */
  lemma SuggestionsTop(chain: Chain, input: string, limit: int)
    requires !AllSpace(input)
    ensures var cands := Candidates(chain, input); var r := Suggestions(chain, input, limit);
      (limit >= 0 ==> |r| == if limit <= |cands| then limit else |cands|) &&
      (limit >= |cands| ==> forall c :: c in cands ==> c.command in r) &&
      (forall c, d :: c in cands && d in cands && c.command !in r && d.command in r ==> c.score <= d.score)
  {
    CandidatesAllowed(chain, input);
    RankedTop(Candidates(chain, input), limit);
  }

  /** `getCommandCount`: the number of commands recorded. */
  function CommandCount(chain: Chain): nat {
    Total(chain.commandCounts)
  }

  /** Recording a non-blank command raises the command count by one; a blank one changes nothing. */
  lemma AddCommandCount(chain: Chain, command: string)
    ensures CommandCount(AddCommand(chain, command)) ==
      CommandCount(chain) + (if AllSpace(command) then 0 else 1)
  {
    if !AllSpace(command) {
      AddCommandCounts(chain, command);
    }
  }

  /** The empty chain has recorded nothing and suggests nothing. */
  lemma EmptyChainSpec(input: string, token: string, limit: int)
    ensures CommandCount(EmptyChain()) == 0
    ensures NextTokens(EmptyChain(), token, limit) == []
    ensures WellFormed(EmptyChain())
    ensures Suggestions(EmptyChain(), input, limit) == []
  {
    if Trim(input) != [] {
      var tokens := Tokenize(Trim(input));
      assert Candidates(EmptyChain(), input) == [];
    }
  }
}

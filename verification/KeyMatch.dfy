/** Matching an environment key against the configuration's keys.  An underscore in the environment key may stand
    for an underscore or for a dot, so every combination is tried. */
module KeyMatch {

  /** Dots become underscores: what a configuration key looks like in the environment. */
  function Flatten(s: string): string {
    seq(|s|, i requires 0 <= i < |s| => if s[i] == '.' then '_' else s[i])
  }

  function ToDots(s: string): string {
    seq(|s|, i requires 0 <= i < |s| => if s[i] == '_' then '.' else s[i])
  }

  /** The parts between underscores; there is always at least one. */
  function Split(s: string): (parts: seq<string>)
    ensures |parts| >= 1
    ensures forall i :: 0 <= i < |parts| ==> '_' !in parts[i]
  {
    if s == "" then [""]
    else
      var rest := Split(s[1..]);
      if s[0] == '_' then [""] + rest else [[s[0]] + rest[0]] + rest[1..]
  }

  /** The parts from the i-th on, each with its underscore before it. */
  function Tail(parts: seq<string>, i: nat): string
    requires i <= |parts|
    decreases |parts| - i
  {
    if i == |parts| then "" else "_" + parts[i] + Tail(parts, i + 1)
  }

  lemma {:induction false} TailOfRest(parts: seq<string>, first: string, i: nat)
    requires i <= |parts|
    ensures Tail([first] + parts, i + 1) == Tail(parts, i)
    decreases |parts| - i
  {
    var longer := [first] + parts;
    if i < |parts| {
      TailOfRest(parts, first, i + 1);
      assert longer[i + 1] == parts[i];
      assert Tail(longer, i + 1) == "_" + longer[i + 1] + Tail(longer, i + 2);
    }
  }

  lemma {:induction false} TailSkipsFirst(parts: seq<string>, other: seq<string>, i: nat)
    requires 1 <= i <= |parts| == |other| && parts[1..] == other[1..]
    ensures Tail(parts, i) == Tail(other, i)
    decreases |parts| - i
  {
    if i < |parts| {
      assert parts[i] == parts[1..][i - 1] && other[i] == other[1..][i - 1];
      TailSkipsFirst(parts, other, i + 1);
    }
  }

  /** Putting the parts back together gives the key. */
  lemma {:induction false} SplitJoin(s: string)
    ensures s == Split(s)[0] + Tail(Split(s), 1)
    ensures |Split(s)| == 1 <==> '_' !in s
  {
    if s != "" {
      hide Tail;
      var rest := Split(s[1..]);
      SplitJoin(s[1..]);
      assert s == [s[0]] + s[1..];
      if s[0] == '_' {
        TailOfRest(rest, "", 0);
        FirstOfTail(rest);
      } else {
        TailSkipsFirst(Split(s), rest, 1);
      }
    }
  }

  lemma FirstOfTail(parts: seq<string>)
    requires parts != []
    ensures Tail(parts, 0) == "_" + parts[0] + Tail(parts, 1)
  {
  }

  lemma {:induction false} PartsHaveNoDots(s: string)
    requires '.' !in s
    ensures forall i :: 0 <= i < |Split(s)| ==> '.' !in Split(s)[i]
  {
    if s != "" {
      PartsHaveNoDots(s[1..]);
    }
  }

  /** The search reaches k from position idx with `current` built so far. */
  ghost predicate Reaches(parts: seq<string>, idx: nat, current: string, k: string)
    requires idx <= |parts|
    decreases |parts| - idx
  {
    if idx == |parts| then k == current
    else if current == "" then Reaches(parts, idx + 1, parts[idx], k)
    else
      || Reaches(parts, idx + 1, current + "_" + parts[idx], k)
      || Reaches(parts, idx + 1, current + "." + parts[idx], k)
  }

  lemma {:induction false} ReachesExtends(parts: seq<string>, idx: nat, current: string, k: string)
    requires idx <= |parts| && Reaches(parts, idx, current, k)
    ensures current <= k
    decreases |parts| - idx
  {
    if idx < |parts| && current != "" {
      if Reaches(parts, idx + 1, current + "_" + parts[idx], k) {
        ReachesExtends(parts, idx + 1, current + "_" + parts[idx], k);
      } else {
        ReachesExtends(parts, idx + 1, current + "." + parts[idx], k);
      }
    }
  }

  // ---------------------------------------------------------------------------------------------------------
  // What the search reaches
  // ---------------------------------------------------------------------------------------------------------

  lemma FlattenAppend(a: string, b: string)
    ensures Flatten(a + b) == Flatten(a) + Flatten(b)
  {
  }

  lemma FlattenPlain(a: string)
    requires '.' !in a
    ensures Flatten(a) == a
  {
  }

  /** k continues `current` with the remaining parts, with a dot or an underscore before each. */
  ghost predicate Continues(parts: seq<string>, idx: nat, current: string, k: string)
    requires idx <= |parts|
  {
    current <= k && Flatten(k[|current|..]) == Tail(parts, idx)
  }

  lemma ContinuesStep(parts: seq<string>, idx: nat, current: string, k: string)
    requires idx < |parts| && '.' !in parts[idx] && '_' !in parts[idx]
    ensures Continues(parts, idx, current, k)
            <==> || Continues(parts, idx + 1, current + "_" + parts[idx], k)
                 || Continues(parts, idx + 1, current + "." + parts[idx], k)
  {
    if Continues(parts, idx, current, k) {
      NextSeparator(parts, idx, current, k);
    }
    if Continues(parts, idx + 1, current + "_" + parts[idx], k) {
      SeparatorFlattens(parts, idx, current, k, "_");
    }
    if Continues(parts, idx + 1, current + "." + parts[idx], k) {
      SeparatorFlattens(parts, idx, current, k, ".");
    }
  }

  lemma NextSeparator(parts: seq<string>, idx: nat, current: string, k: string)
    requires idx < |parts| && '_' !in parts[idx]
    requires Continues(parts, idx, current, k)
    ensures || Continues(parts, idx + 1, current + "_" + parts[idx], k)
            || Continues(parts, idx + 1, current + "." + parts[idx], k)
  {
    var p, t, rest := parts[idx], k[|current|..], Tail(parts, idx + 1);
    assert Flatten(t) == "_" + p + rest;
    assert Flatten(t)[0] == '_' && |t| == 1 + |p| + |rest|;
    assert t[1..][..|p|] == p by {
      forall i | 0 <= i < |p|
        ensures t[1 + i] == p[i]
      {
        assert Flatten(t)[1 + i] == p[i];
        assert p[i] in p;
      }
    }
    var sep := [t[0]];
    assert t == sep + p + t[1 + |p|..];
    assert k == current + sep + p + t[1 + |p|..];
    assert k[|current + sep + p|..] == t[1 + |p|..];
    assert Flatten(t[1 + |p|..]) == Flatten(t)[1 + |p|..] == rest;
    assert sep == "_" || sep == ".";
  }

  lemma SeparatorFlattens(parts: seq<string>, idx: nat, current: string, k: string, sep: string)
    requires idx < |parts| && '.' !in parts[idx] && (sep == "_" || sep == ".")
    requires Continues(parts, idx + 1, current + sep + parts[idx], k)
    ensures Continues(parts, idx, current, k)
  {
    var t := k[|current + sep + parts[idx]|..];
    assert k == current + sep + parts[idx] + t;
    assert k[|current|..] == sep + parts[idx] + t;
    FlattenAppend(sep + parts[idx], t);
    FlattenAppend(sep, parts[idx]);
    FlattenPlain(parts[idx]);
  }

  /** Once something is built, the search reaches exactly the ways of separating the remaining parts. */
  lemma {:induction false} ReachesAllChoices(parts: seq<string>, idx: nat, current: string, k: string)
    requires idx <= |parts| && current != ""
    requires forall i :: 0 <= i < |parts| ==> '.' !in parts[i] && '_' !in parts[i]
    ensures Reaches(parts, idx, current, k) <==> Continues(parts, idx, current, k)
    decreases |parts| - idx
  {
    if idx == |parts| {
      if Continues(parts, idx, current, k) {
        assert |Flatten(k[|current|..])| == 0;
      }
    } else {
      ReachesAllChoices(parts, idx + 1, current + "_" + parts[idx], k);
      ReachesAllChoices(parts, idx + 1, current + "." + parts[idx], k);
      ContinuesStep(parts, idx, current, k);
    }
  }

  /** Leading underscores are not part of anything the search tries. */
  function Strip(s: string): string {
    if s != "" && s[0] == '_' then Strip(s[1..]) else s
  }

  /** From the start, the search reaches exactly the keys that flatten to the key without its leading
      underscores. */
  lemma {:induction false} ReachesFromStart(parts: seq<string>, idx: nat, k: string)
    requires idx < |parts|
    requires forall i :: 0 <= i < |parts| ==> '.' !in parts[i] && '_' !in parts[i]
    ensures Reaches(parts, idx, "", k) <==> Flatten(k) == Strip(parts[idx] + Tail(parts, idx + 1))
    decreases |parts| - idx
  {
    var rest := parts[idx] + Tail(parts, idx + 1);
    if parts[idx] == "" {
      if idx + 1 < |parts| {
        ReachesFromStart(parts, idx + 1, k);
        assert rest[1..] == parts[idx + 1] + Tail(parts, idx + 2);
      } else {
        assert rest == "";
        assert Flatten(k) == "" <==> k == "" by { assert |Flatten(k)| == |k|; }
      }
    } else {
      assert rest[0] == parts[idx][0];
      assert parts[idx][0] in parts[idx];
      ReachesAllChoices(parts, idx + 1, parts[idx], k);
      FirstPartKept(parts[idx], Tail(parts, idx + 1), k);
    }
  }

  lemma FirstPartKept(p: string, t: string, k: string)
    requires '.' !in p && '_' !in p
    ensures Flatten(k) == p + t <==> p <= k && Flatten(k[|p|..]) == t
  {
    if Flatten(k) == p + t {
      forall i | 0 <= i < |p|
        ensures k[i] == p[i]
      {
        assert Flatten(k)[i] == p[i];
        assert p[i] in p;
      }
      assert k[..|p|] == p;
      assert Flatten(k[|p|..]) == Flatten(k)[|p|..] == t;
    }
    if p <= k && Flatten(k[|p|..]) == t {
      assert k == p + k[|p|..];
      FlattenAppend(p, k[|p|..]);
      FlattenPlain(p);
    }
  }

  // ---------------------------------------------------------------------------------------------------------
  // The search
  // ---------------------------------------------------------------------------------------------------------

  /** ASCII order. */
  predicate NotAfter(a: string, b: string) {
    a == "" || (b != "" && (a[0] < b[0] || (a[0] == b[0] && NotAfter(a[1..], b[1..]))))
  }

  /** What ASCII order means: a is a prefix of b, or has the lesser character where they first differ. */
  lemma {:induction false} NotAfterMeans(a: string, b: string)
    ensures NotAfter(a, b) <==> a <= b || exists i :: 0 <= i < |a| && i < |b| && a[..i] == b[..i] && a[i] < b[i]
  {
    if a != "" && b != "" {
      if a[0] == b[0] {
        NotAfterMeans(a[1..], b[1..]);
        SameFirst(a, b);
      } else if a[0] < b[0] {
        assert a[..0] == b[..0];
      } else {
        forall i | 0 < i < |a| && i < |b|
          ensures a[..i] != b[..i]
        {
          assert a[..i][0] != b[..i][0];
        }
      }
    }
  }

  /** Whether one of two keys with the same first character comes first is decided by the rest. */
  lemma SameFirst(a: string, b: string)
    requires a != "" && b != "" && a[0] == b[0]
    ensures (a <= b <==> a[1..] <= b[1..])
    ensures (exists i :: 0 <= i < |a| && i < |b| && a[..i] == b[..i] && a[i] < b[i])
            <==> exists i :: 0 <= i < |a[1..]| && i < |b[1..]| && a[1..][..i] == b[1..][..i] && a[1..][i] < b[1..][i]
  {
    var c, d := a[1..], b[1..];
    assert a == [a[0]] + c && b == [a[0]] + d;
    if i :| 0 <= i < |a| && i < |b| && a[..i] == b[..i] && a[i] < b[i] {
      assert c[..i - 1] == a[..i][1..] == b[..i][1..] == d[..i - 1] && c[i - 1] < d[i - 1];
    }
    if i :| 0 <= i < |c| && i < |d| && c[..i] == d[..i] && c[i] < d[i] {
      assert a[..i + 1] == [a[0]] + c[..i] == [a[0]] + d[..i] == b[..i + 1] && a[i + 1] < b[i + 1];
    }
  }

  lemma {:induction false} DotFirst(current: string, a: string, b: string)
    requires current + "." <= a && current + "_" <= b
    ensures NotAfter(a, b)
  {
    if current == "" {
      assert a[0] == '.' && b[0] == '_';
    } else {
      assert a[0] == current[0] == b[0];
      assert current == [current[0]] + current[1..];
      DotFirst(current[1..], a[1..], b[1..]);
    }
  }

  lemma {:induction false} NotAfterItself(a: string)
    ensures NotAfter(a, a)
  {
    if a != "" {
      NotAfterItself(a[1..]);
    }
  }

  /** b is the first, in ASCII order, of the keys the search reaches, or `best` when it reaches none. */
  ghost predicate FirstReached(parts: seq<string>, existing: set<string>, idx: nat, current: string, best: string,
                               b: string)
    requires idx <= |parts|
  {
    if exists k :: k in existing && Reaches(parts, idx, current, k)
    then b in existing && Reaches(parts, idx, current, b)
         && forall k :: k in existing && Reaches(parts, idx, current, k) ==> NotAfter(b, k)
    else b == best
  }

  function Pow2(n: nat): nat {
    if n == 0 then 1 else 2 * Pow2(n - 1)
  }

  /** The underscore is tried before the dot and the last match wins, which leaves the first in ASCII order. */
  lemma LastMatchIsFirst(parts: seq<string>, existing: set<string>, idx: nat, current: string, best: string,
                         underscored: string, dotted: string)
    requires idx < |parts| && current != ""
    requires FirstReached(parts, existing, idx + 1, current + "_" + parts[idx], best, underscored)
    requires FirstReached(parts, existing, idx + 1, current + "." + parts[idx], underscored, dotted)
    ensures FirstReached(parts, existing, idx, current, best, dotted)
  {
    var u, d := current + "_" + parts[idx], current + "." + parts[idx];
    if exists k :: k in existing && Reaches(parts, idx + 1, d, k) {
      forall k | k in existing && Reaches(parts, idx, current, k)
        ensures NotAfter(dotted, k)
      {
        if Reaches(parts, idx + 1, u, k) {
          ReachesExtends(parts, idx + 1, u, k);
          ReachesExtends(parts, idx + 1, d, dotted);
          DotFirst(current, dotted, k);
        }
      }
    } else if exists k :: k in existing && Reaches(parts, idx + 1, u, k) {
      assert Reaches(parts, idx, current, dotted);
    }
  }

  /** The recursive closure; `best` is the captured variable, and `tried` counts the candidates looked up. */
  method Search(parts: seq<string>, existing: set<string>, idx: nat, current: string, best: string)
    returns (b: string, tried: nat)
    requires idx <= |parts|
    ensures FirstReached(parts, existing, idx, current, best, b)
    ensures current != "" ==> tried == Pow2(|parts| - idx)
    ensures current == "" && idx < |parts| && parts[idx] != "" ==> tried == Pow2(|parts| - idx - 1)
    decreases |parts| - idx
  {
    if idx == |parts| {
      NotAfterItself(current);
      return if current in existing then current else best, 1;
    }
    if current == "" {
      b, tried := Search(parts, existing, idx + 1, parts[idx], best);
      return;
    }
    var underscored, n := Search(parts, existing, idx + 1, current + "_" + parts[idx], best);
    var dotted, m := Search(parts, existing, idx + 1, current + "." + parts[idx], underscored);
    LastMatchIsFirst(parts, existing, idx, current, best, underscored, dotted);
    b, tried := dotted, n + m;
  }

  /** The environment key has a configuration key to match once its leading underscores are gone. */
  ghost predicate HasMatch(existingKeys: seq<string>, stripped: string) {
    exists k :: k in existingKeys && k != "" && Flatten(k) == stripped
  }

  /** The key is the environment key with a dot in the place of every underscore, and nothing else changed. */
  ghost predicate IsDotted(envKey: string, key: string) {
    && |key| == |envKey| && '_' !in key
    && (forall i :: 0 <= i < |envKey| && envKey[i] == '_' ==> key[i] == '.')
    && (forall i :: 0 <= i < |envKey| && envKey[i] != '_' ==> key[i] == envKey[i])
  }

  /** k is the first key in ASCII order, of those that are not empty, to flatten to the stripped key. */
  ghost predicate IsFirstMatch(existingKeys: seq<string>, stripped: string, k: string) {
    && k in existingKeys && k != "" && Flatten(k) == stripped
    && forall other :: other in existingKeys && other != "" && Flatten(other) == stripped ==> NotAfter(k, other)
  }

  /** Picks the configuration key for an environment key.
      A key without underscores is its own answer.  Any other key without dots is answered by the first existing key
      in ASCII order that flattens to it once its leading underscores are gone, and, when there is none, by itself
      with dots for underscores.
      So the result flattens back to the environment key exactly when that has no dot, and no leading underscore
      that a match would have to drop; and when it has no leading underscore either, the result is an existing key
      exactly when one flattens to the environment key. */
  method BestKeyMatch(envKey: string, existingKeys: seq<string>) returns (key: string, tried: nat)
    ensures Flatten(key) == envKey
            <==> '.' !in envKey && !(envKey != "" && envKey[0] == '_' && HasMatch(existingKeys, Strip(envKey)))
    ensures '.' !in envKey && (envKey == "" || envKey[0] != '_') ==>
              && (key in existingKeys <==> exists k :: k in existingKeys && Flatten(k) == envKey)
              && forall k :: k in existingKeys && key in existingKeys && Flatten(k) == envKey ==> NotAfter(key, k)
    ensures '_' !in envKey ==> key == envKey
    ensures '.' !in envKey && '_' in envKey ==>
              if HasMatch(existingKeys, Strip(envKey)) then IsFirstMatch(existingKeys, Strip(envKey), key)
              else IsDotted(envKey, key)
    ensures '_' in envKey && key !in existingKeys ==> IsDotted(envKey, key)
    ensures envKey != "" && envKey[0] != '_' && '_' in envKey ==> tried == Pow2(|Split(envKey)| - 1)
  {
    hide Split, Tail, Reaches, NotAfter, Flatten, Strip, FirstReached, ToDots, HasMatch, IsDotted;
    var existing: set<string> := {};
    for i := 0 to |existingKeys|
      invariant existing == set k | k in existingKeys[..i]
    {
      assert existingKeys[..i + 1] == existingKeys[..i] + [existingKeys[i]];
      existing := existing + {existingKeys[i]};
    }
    assert existingKeys[..|existingKeys|] == existingKeys;

    var parts := Split(envKey);
    SplitJoin(envKey);
    if |parts| == 1 {
      SinglePart(envKey, existingKeys);
      return envKey, 0;
    }
    var best;
    best, tried := Search(parts, existing, 0, "", "");
    FoundExists(parts, existing, best);
    FirstPart(envKey);
    ToDotsIsDotted(envKey);
    key := if best != "" then best else ToDots(envKey);
    NoDotsInFlattened(key);
    if '.' !in envKey {
      SearchOutcome(envKey, existingKeys, existing, best);
      AnswerMeans(envKey, existingKeys, key);
    }
  }

  lemma FoundExists(parts: seq<string>, existing: set<string>, best: string)
    requires FirstReached(parts, existing, 0, "", "", best)
    ensures best == "" || best in existing
  {
    hide Reaches, NotAfter;
  }

  lemma FirstPart(s: string)
    ensures s != "" && s[0] != '_' ==> Split(s)[0] != ""
  {
  }

  lemma ToDotsIsDotted(s: string)
    ensures IsDotted(s, ToDots(s))
  {
  }

  /** What the answer for a key with underscores and without dots flattens to, and when it is an existing key. */
  lemma AnswerMeans(envKey: string, existingKeys: seq<string>, key: string)
    requires '.' !in envKey && '_' in envKey
    requires if HasMatch(existingKeys, Strip(envKey)) then IsFirstMatch(existingKeys, Strip(envKey), key)
             else IsDotted(envKey, key)
    ensures Flatten(key) == envKey <==> !(envKey[0] == '_' && HasMatch(existingKeys, Strip(envKey)))
    ensures envKey[0] != '_' ==>
              && (key in existingKeys <==> exists k :: k in existingKeys && Flatten(k) == envKey)
              && forall k :: k in existingKeys && key in existingKeys && Flatten(k) == envKey ==> NotAfter(key, k)
  {
    StripShorter(envKey);
    FlattenedLength();
    if !HasMatch(existingKeys, Strip(envKey)) {
      DottedFlattens(envKey, key);
    }
    hide Strip, Flatten, NotAfter, IsDotted;
  }

  lemma DottedFlattens(s: string, key: string)
    requires '.' !in s && IsDotted(s, key)
    ensures Flatten(key) == s
  {
  }

  lemma NoDotsInFlattened(s: string)
    ensures '.' !in Flatten(s)
  {
  }

  /** A key without underscores and dots is its own only match. */
  lemma SinglePart(envKey: string, existingKeys: seq<string>)
    requires '_' !in envKey
    ensures Flatten(envKey) == envKey <==> '.' !in envKey
    ensures forall k :: Flatten(k) == envKey ==> k == envKey
    ensures NotAfter(envKey, envKey)
  {
    NotAfterItself(envKey);
    NoDotsInFlattened(envKey);
    if '.' !in envKey {
      FlattenPlain(envKey);
    }
    forall k | Flatten(k) == envKey
      ensures k == envKey
    {
      forall i | 0 <= i < |k|
        ensures k[i] != '.'
      {
        assert Flatten(k)[i] in envKey;
      }
    }
  }

  lemma StripShorter(s: string)
    ensures |Strip(s)| <= |s| && if s != "" && s[0] == '_' then |Strip(s)| < |s| else Strip(s) == s
  {
    if s != "" && s[0] == '_' {
      StripShorter(s[1..]);
    }
  }

  lemma FlattenedLength()
    ensures forall k :: |Flatten(k)| == |k|
    ensures Flatten("") == ""
  {
  }

  /** For a key without dots, what the search reaches are the keys that flatten to it without leading
      underscores. */
  lemma ReachedMeansFlattens(envKey: string)
    requires '.' !in envKey
    ensures forall k :: Reaches(Split(envKey), 0, "", k) <==> Flatten(k) == Strip(envKey)
  {
    hide Split, Tail, Flatten, Strip, Reaches;
    SplitJoin(envKey);
    PartsHaveNoDots(envKey);
    forall k
      ensures Reaches(Split(envKey), 0, "", k) <==> Flatten(k) == Strip(envKey)
    {
      ReachesFromStart(Split(envKey), 0, k);
    }
  }

  /** What the search's answer means for a key without dots. */
  lemma SearchOutcome(envKey: string, existingKeys: seq<string>, existing: set<string>, best: string)
    requires '.' !in envKey && existing == set k | k in existingKeys
    requires FirstReached(Split(envKey), existing, 0, "", "", best)
    ensures if HasMatch(existingKeys, Strip(envKey)) then IsFirstMatch(existingKeys, Strip(envKey), best)
            else best == ""
  {
    hide Split, Flatten, Strip, Reaches, NotAfter;
    ReachedMeansFlattens(envKey);
    FlattenedLength();
    if k :| k in existingKeys && k != "" && Flatten(k) == Strip(envKey) {
      assert k in existing && Reaches(Split(envKey), 0, "", k);
    }
  }
}

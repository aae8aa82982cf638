/**
 * The edit of a configuration's plugin list: known entries are removed one by
 * one from the back, one of them is kept and renamed, or one is appended.
 */
module PluginList {
  import opened Wrappers

  /** The text of a JSON value. */
  type Json = string

  /** A bare spec, or a pair of a spec and the options the user gave it. */
  datatype Entry = Bare(spec: string) | WithOptions(spec: string, options: Json)

  function Renamed(e: Entry, spec: string): Entry {
    e.(spec := spec)
  }

  /** The configured names of this plugin, up to the normalization of file specs. */
  datatype Names = Names(known: seq<string>, normalize: string -> string) {
    predicate Knows(spec: string) {
      exists k | 0 <= k < |known| :: normalize(known[k]) == normalize(spec)
    }

    predicate Matches(e: Entry) { Knows(e.spec) }
  }

  /** A spec is known when it and a known name have the same normal form, so equal normal forms are known alike. */
  lemma KnownUpToNormalization(names: Names, a: string, b: string)
    requires names.normalize(a) == names.normalize(b)
    ensures names.Knows(a) <==> names.Knows(b)
    ensures a in names.known ==> names.Knows(b)
    ensures names.Knows(a) ==> exists k :: 0 <= k < |names.known| && names.normalize(names.known[k]) == names.normalize(b)
  {
    if a in names.known {
      var k :| 0 <= k < |names.known| && names.known[k] == a;
      assert names.normalize(names.known[k]) == names.normalize(b);
    }
  }

  // ---------------------------------------------------------------- what the edit means

  /** The entries of `list` that are not this plugin's, in order. */
  function Others(names: Names, list: seq<Entry>): seq<Entry> {
    if list == [] then []
    else Others(names, list[..|list| - 1]) + if names.Matches(list[|list| - 1]) then [] else [list[|list| - 1]]
  }

  function KnownCount(names: Names, list: seq<Entry>): nat {
    if list == [] then 0
    else KnownCount(names, list[..|list| - 1]) + if names.Matches(list[|list| - 1]) then 1 else 0
  }

  /** The match that is kept: the first one with options, or else the first one. */
  predicate IsKeeper(names: Names, list: seq<Entry>, k: nat) {
    && k < |list| && names.Matches(list[k])
    && (forall i | 0 <= i < k && names.Matches(list[i]) :: list[i].Bare? && list[k].WithOptions?)
    && (list[k].Bare? ==> forall i | 0 <= i < |list| && names.Matches(list[i]) :: list[i].Bare?)
  }

  function Kept(names: Names, list: seq<Entry>, k: nat, desired: string): seq<Entry>
    requires k < |list|
  {
    Others(names, list[..k]) + [Renamed(list[k], desired)] + Others(names, list[k + 1..])
  }

  lemma {:induction false} OthersConcat(names: Names, a: seq<Entry>, b: seq<Entry>)
    ensures Others(names, a + b) == Others(names, a) + Others(names, b)
    ensures KnownCount(names, a + b) == KnownCount(names, a) + KnownCount(names, b)
  {
    if b == [] {
      assert a + b == a;
    } else {
      OthersConcat(names, a, b[..|b| - 1]);
      assert (a + b)[..|a + b| - 1] == a + b[..|b| - 1];
    }
  }

  lemma OthersSingle(names: Names, e: Entry)
    ensures Others(names, [e]) == if names.Matches(e) then [] else [e]
    ensures KnownCount(names, [e]) == if names.Matches(e) then 1 else 0
  {
  }

  lemma OthersSplit(names: Names, list: seq<Entry>, k: nat)
    requires k < |list|
    ensures Others(names, list) == Others(names, list[..k]) + (if names.Matches(list[k]) then [] else [list[k]]) + Others(names, list[k + 1..])
    ensures KnownCount(names, list) == KnownCount(names, list[..k]) + (if names.Matches(list[k]) then 1 else 0) + KnownCount(names, list[k + 1..])
  {
    hide Others, KnownCount, Names.Matches;
    OthersConcat(names, list[..k] + [list[k]], list[k + 1..]);
    OthersConcat(names, list[..k], [list[k]]);
    OthersSingle(names, list[k]);
    assert list == list[..k] + [list[k]] + list[k + 1..];
  }

  lemma {:induction false} OthersAreUnknown(names: Names, list: seq<Entry>)
    ensures Others(names, Others(names, list)) == Others(names, list)
    ensures KnownCount(names, Others(names, list)) == 0
  {
    if list != [] {
      var front, last := list[..|list| - 1], list[|list| - 1];
      OthersAreUnknown(names, front);
      OthersSingle(names, last);
      OthersConcat(names, Others(names, front), if names.Matches(last) then [] else [last]);
    }
  }

  lemma {:induction false} NoneKnown(names: Names, list: seq<Entry>)
    ensures KnownCount(names, list) == 0 <==> forall i | 0 <= i < |list| :: !names.Matches(list[i])
    ensures KnownCount(names, list) == 0 ==> Others(names, list) == list
    ensures KnownCount(names, list) > 0 ==> |Others(names, list)| < |list|
    ensures |Others(names, list)| <= |list|
  {
    if list != [] {
      NoneKnown(names, list[..|list| - 1]);
      assert list == list[..|list| - 1] + [list[|list| - 1]];
    }
  }

  // ---------------------------------------------------------------- the edit itself

  function RemoveAt(list: seq<Entry>, i: nat): seq<Entry>
    requires i < |list|
  {
    list[..i] + list[i + 1..]
  }

  predicate Ascending(indices: seq<nat>) {
    forall a, b | 0 <= a < b < |indices| :: indices[a] < indices[b]
  }

  /** The entries of `list[a..b]` whose index is not in `drop`. */
  function Remaining(list: seq<Entry>, drop: seq<nat>, a: nat, b: nat): seq<Entry>
    requires a <= b <= |list|
    decreases b
  {
    if a == b then [] else Remaining(list, drop, a, b - 1) + if b - 1 in drop then [] else [list[b - 1]]
  }

  lemma {:induction false} RemainingSplits(list: seq<Entry>, drop: seq<nat>, a: nat, b: nat, c: nat)
    requires a <= b <= c <= |list|
    ensures Remaining(list, drop, a, c) == Remaining(list, drop, a, b) + Remaining(list, drop, b, c)
    decreases c
  {
    if b < c {
      RemainingSplits(list, drop, a, b, c - 1);
    }
  }

  lemma {:induction false} RemainingUndropped(list: seq<Entry>, drop: seq<nat>, a: nat, b: nat)
    requires a <= b <= |list| && forall i | a <= i < b :: i !in drop
    ensures Remaining(list, drop, a, b) == list[a..b]
    decreases b
  {
    if a < b {
      RemainingUndropped(list, drop, a, b - 1);
    }
  }

  lemma {:induction false} RemainingIsOthers(names: Names, list: seq<Entry>, drop: seq<nat>, a: nat, b: nat)
    requires a <= b <= |list| && forall i | a <= i < b :: i in drop <==> names.Matches(list[i])
    ensures Remaining(list, drop, a, b) == Others(names, list[a..b])
    decreases b
  {
    if a < b {
      RemainingIsOthers(names, list, drop, a, b - 1);
      assert list[a..b][..b - a - 1] == list[a..b - 1];
    }
  }

  /** The first `c` of the ascending indices are the ones below `b`, so `b - c` entries remain there. */
  lemma {:induction false} RemainingLength(list: seq<Entry>, drop: seq<nat>, b: nat, c: nat)
    requires b <= |list| && c <= |drop| && Ascending(drop)
    requires (forall a | 0 <= a < c :: drop[a] < b) && (forall a | c <= a < |drop| :: drop[a] >= b)
    ensures |Remaining(list, drop, 0, b)| == b - c
    decreases b
  {
    if b > 0 {
      if b - 1 in drop {
        var a :| 0 <= a < |drop| && drop[a] == b - 1;
        assert a < c && drop[c - 1] <= drop[a];
        assert a == c - 1;
        RemainingLength(list, drop, b - 1, c - 1);
      } else {
        RemainingLength(list, drop, b - 1, c);
      }
    }
  }

  /** Nothing is dropped between one dropped index and the end of what has been dealt with. */
  lemma RemainingBefore(list: seq<Entry>, drop: seq<nat>, i: nat, p: nat)
    requires i < p <= |list| && i in drop && forall m | i < m < p :: m !in drop
    ensures Remaining(list, drop, i, |list|) == list[i + 1..p] + Remaining(list, drop, p, |list|)
  {
    hide Remaining;
    RemainingUndropped(list, drop, i + 1, p);
    RemainingSplits(list, drop, i + 1, p, |list|);
    RemainingSplits(list, drop, i, i + 1, |list|);
    RemainingOne(list, drop, i);
  }

  lemma RemainingOne(list: seq<Entry>, drop: seq<nat>, i: nat)
    requires i < |list|
    ensures Remaining(list, drop, i, i + 1) == if i in drop then [] else [list[i]]
  {
  }

  /** The indices of the matches, in order. */
  method FindMatches(names: Names, list: seq<Entry>) returns (matches: seq<nat>)
    ensures forall i :: i in matches <==> 0 <= i < |list| && names.Matches(list[i])
    ensures Ascending(matches)
  {
    matches := [];
    for i := 0 to |list|
      invariant forall k :: k in matches <==> 0 <= k < i && names.Matches(list[k])
      invariant Ascending(matches)
    {
      assert forall a | 0 <= a < |matches| :: matches[a] in matches;
      if names.Matches(list[i]) {
        matches := matches + [i];
      }
    }
  }

  /** Removes the entries at the given ascending indices, last one first, so that the others keep their index until their turn. */
  method RemoveAll(list: seq<Entry>, removed: seq<nat>) returns (after: seq<Entry>)
    requires Ascending(removed) && forall i | i in removed :: i < |list|
    ensures after == Remaining(list, removed, 0, |list|)
  {
    after := list;
    ghost var p: nat := |list|;
    assert forall a | 0 <= a < |removed| :: removed[a] in removed;
    for j := |removed| downto 0
      invariant p <= |list|
      invariant after == list[..p] + Remaining(list, removed, p, |list|)
      invariant forall a | 0 <= a < j :: removed[a] < p
      invariant forall a | j <= a < |removed| :: p <= removed[a]
    {
      hide Remaining;
      var i := removed[j];
      RemainingBefore(list, removed, i, p);
      after := RemoveAt(after, i);
      p := i;
    }
    RemainingUndropped(list, removed, 0, p);
    RemainingSplits(list, removed, 0, p, |list|);
  }

  /** The first match that carries options, or the first match. */
  method FindKeeper(names: Names, list: seq<Entry>, matches: seq<nat>) returns (k: nat)
    requires matches != [] && Ascending(matches)
    requires forall i :: i in matches <==> 0 <= i < |list| && names.Matches(list[i])
    ensures IsKeeper(names, list, k)
  {
    assert forall a | 0 <= a < |matches| :: matches[a] in matches;
    for j := 0 to |matches|
      invariant forall a | 0 <= a < j :: list[matches[a]].Bare?
    {
      if list[matches[j]].WithOptions? {
        k := matches[j];
        forall i | 0 <= i < k && names.Matches(list[i]) ensures list[i].Bare? {
          assert i in matches;
        }
        return;
      }
    }
    k := matches[0];
    forall i | 0 <= i < |list| && names.Matches(list[i]) ensures list[i].Bare? && k <= i {
      assert i in matches;
    }
  }

  /** The list after an installation. */
  ghost function Installed(names: Names, list: seq<Entry>, desired: string): seq<Entry> {
    if exists k: nat :: IsKeeper(names, list, k) then
      var k: nat :| IsKeeper(names, list, k);
      Kept(names, list, k, desired)
    else list + [Bare(desired)]
  }

  /** The ascending indices without one of them, and how many of them lie before it. */
  method AllBut(matches: seq<nat>, keeper: nat) returns (removed: seq<nat>, before: nat)
    requires Ascending(matches)
    ensures Ascending(removed) && forall i :: i in removed <==> i in matches && i != keeper
    ensures before <= |removed|
    ensures forall a | 0 <= a < before :: removed[a] < keeper
    ensures forall a | before <= a < |removed| :: removed[a] >= keeper
  {
    removed, before := [], 0;
    for j := 0 to |matches|
      invariant Ascending(removed)
      invariant forall i :: i in removed <==> i in matches[..j] && i != keeper
    {
      assert forall a | 0 <= a < |removed| :: removed[a] in removed;
      assert forall i | i in matches[..j] :: i < matches[j];
      if matches[j] != keeper {
        removed := removed + [matches[j]];
      }
    }
    assert matches[..|matches|] == matches;
    while before < |removed| && removed[before] < keeper
      invariant before <= |removed| && forall a | 0 <= a < before :: removed[a] < keeper
    {
      before := before + 1;
    }
  }

  /** Removes all matches but the keeper and gives the keeper the desired spec. */
  method KeepOne(names: Names, list: seq<Entry>, matches: seq<nat>, desired: string) returns (after: seq<Entry>, changed: bool)
    requires matches != [] && Ascending(matches)
    requires forall i :: i in matches <==> 0 <= i < |list| && names.Matches(list[i])
    ensures after == Installed(names, list, desired)
    ensures changed <==> after != list
  {
    var keeper := FindKeeper(names, list, matches);
    var removed, before := AllBut(matches, keeper);
    after := RemoveAll(list, removed);
    hide Others, Remaining, Ascending, Names.Matches, Kept;
    KeepsAround(names, list, removed, keeper, before);
    RemovalShrinks(list, removed);
    KeptByRenaming(names, list, keeper, desired, after);
    InstalledIsKept(names, list, keeper, desired);
    var at := keeper - before;
    changed := removed != [];
    if after[at].spec != desired {
      after := after[at := Renamed(after[at], desired)];
      changed := true;
    }
  }

  lemma KeptByRenaming(names: Names, list: seq<Entry>, k: nat, desired: string, rest: seq<Entry>)
    requires k < |list| && rest == Others(names, list[..k]) + [list[k]] + Others(names, list[k + 1..])
    ensures var at := |Others(names, list[..k])|;
            at < |rest| && rest[at] == list[k] && Kept(names, list, k, desired) == rest[at := Renamed(list[k], desired)]
    ensures list[k].spec == desired ==> Kept(names, list, k, desired) == rest
  {
  }

  lemma InstalledIsKept(names: Names, list: seq<Entry>, keeper: nat, desired: string)
    requires IsKeeper(names, list, keeper)
    ensures Installed(names, list, desired) == Kept(names, list, keeper, desired)
  {
  }

  lemma KeepsAround(names: Names, list: seq<Entry>, removed: seq<nat>, k: nat, before: nat)
    requires Ascending(removed) && before <= |removed| && k < |list|
    requires forall i :: i in removed <==> 0 <= i < |list| && names.Matches(list[i]) && i != k
    requires (forall a | 0 <= a < before :: removed[a] < k) && (forall a | before <= a < |removed| :: removed[a] >= k)
    ensures Remaining(list, removed, 0, |list|) == Others(names, list[..k]) + [list[k]] + Others(names, list[k + 1..])
    ensures |Others(names, list[..k])| == k - before
  {
    hide Others, Remaining, Names.Matches, Ascending;
    RemainingSplits(list, removed, 0, k, |list|);
    RemainingSplits(list, removed, k, k + 1, |list|);
    RemainingOne(list, removed, k);
    RemainingIsOthers(names, list, removed, 0, k);
    RemainingIsOthers(names, list, removed, k + 1, |list|);
    RemainingLength(list, removed, k, before);
    assert list[0..k] == list[..k] && list[k + 1..|list|] == list[k + 1..];
  }

  lemma RemovalShrinks(list: seq<Entry>, removed: seq<nat>)
    requires Ascending(removed) && forall i | i in removed :: i < |list|
    ensures |Remaining(list, removed, 0, |list|)| == |list| - |removed|
    ensures removed == [] ==> Remaining(list, removed, 0, |list|) == list
  {
    assert forall a | 0 <= a < |removed| :: removed[a] in removed;
    RemainingLength(list, removed, |list|, |removed|);
    if removed == [] {
      RemainingUndropped(list, removed, 0, |list|);
    }
  }

  /** The whole edit; `changed` says whether the configuration has to be written. */
  method PlanList(names: Names, plugins: Option<seq<Entry>>, desired: string, uninstall: bool)
    returns (after: Option<seq<Entry>>, changed: bool)
    ensures uninstall ==> after == if plugins.Some? then Some(Others(names, plugins.value)) else None
    ensures !uninstall ==> after == Some(if plugins.Some? then Installed(names, plugins.value, desired) else [Bare(desired)])
    ensures changed <==> after != plugins
  {
    if plugins.None? {
      return if uninstall then None else Some([Bare(desired)]), !uninstall;
    }
    var list := plugins.value;
    var matches := FindMatches(names, list);
    if uninstall {
      var kept := RemoveAll(list, matches);
      RemainingIsOthers(names, list, matches, 0, |list|);
      assert list[0..|list|] == list;
      RemovalShrinks(list, matches);
      return Some(kept), matches != [];
    }
    if matches == [] {
      assert forall i | 0 <= i < |list| :: i in matches <==> names.Matches(list[i]);
      return Some(list + [Bare(desired)]), true;
    }
    var kept;
    kept, changed := KeepOne(names, list, matches, desired);
    after := Some(kept);
  }

  // ---------------------------------------------------------------- what the edit achieves

  lemma {:induction false} KeeperExists(names: Names, list: seq<Entry>)
    ensures KnownCount(names, list) > 0 <==> exists k: nat :: IsKeeper(names, list, k)
  {
    NoneKnown(names, list);
    if KnownCount(names, list) > 0 {
      var k := LeastKeeper(names, list);
    }
  }

  lemma LeastKeeper(names: Names, list: seq<Entry>) returns (k: nat)
    requires exists i :: 0 <= i < |list| && names.Matches(list[i])
    ensures IsKeeper(names, list, k)
  {
    k := 0;
    if i :| 0 <= i < |list| && names.Matches(list[i]) && list[i].WithOptions? {
      while !(names.Matches(list[k]) && list[k].WithOptions?)
        invariant k <= i && forall m | 0 <= m < k :: !(names.Matches(list[m]) && list[m].WithOptions?)
        decreases i - k
      {
        k := k + 1;
      }
    } else {
      var i :| 0 <= i < |list| && names.Matches(list[i]);
      while !names.Matches(list[k])
        invariant k <= i && forall m | 0 <= m < k :: !names.Matches(list[m])
        decreases i - k
      {
        k := k + 1;
      }
    }
  }

  /** The kept entry is the only match afterwards when its new spec is known, and otherwise there is none. */
  lemma KeptMeaning(names: Names, list: seq<Entry>, k: nat, desired: string)
    requires IsKeeper(names, list, k)
    ensures var after, at := Kept(names, list, k, desired), |Others(names, list[..k])|;
            && at < |after| && after[at] == Renamed(list[k], desired)
            && after[..at] + after[at + 1..] == Others(names, list)
            && KnownCount(names, after) == (if names.Knows(desired) then 1 else 0)
  {
    hide Others, KnownCount, Names.Knows;
    var front, entry, back := Others(names, list[..k]), Renamed(list[k], desired), Others(names, list[k + 1..]);
    var after := Kept(names, list, k, desired);
    OthersSplit(names, list, k);
    OthersAreUnknown(names, list[..k]);
    OthersAreUnknown(names, list[k + 1..]);
    NoneKnown(names, front);
    NoneKnown(names, back);
    OthersConcat(names, front, [entry]);
    OthersConcat(names, front + [entry], back);
    OthersSingle(names, entry);
    assert after[..|front|] == front && after[|front| + 1..] == back;
  }

  /**
   * After an installation the other entries are as they were, in their order;
   * one entry names the desired spec, with the options of the first match that
   * had any; and it is the only known one when the desired spec is a known one.
   */
  lemma InstalledMeaning(names: Names, list: seq<Entry>, desired: string) returns (at: nat)
    ensures var after := Installed(names, list, desired);
            && at < |after| && after[at].spec == desired
            && after[..at] + after[at + 1..] == Others(names, list)
            && KnownCount(names, after) == (if names.Knows(desired) then 1 else 0)
    ensures forall k | 0 <= k < |list| && names.Matches(list[k]) && list[k].WithOptions? && (forall i | 0 <= i < k && names.Matches(list[i]) :: list[i].Bare?) ::
              Installed(names, list, desired)[at] == WithOptions(desired, list[k].options)
  {
    hide Others, KnownCount, Names.Knows, Kept;
    KeeperExists(names, list);
    if k: nat :| IsKeeper(names, list, k) && Installed(names, list, desired) == Kept(names, list, k, desired) {
      KeptMeaning(names, list, k, desired);
      at := |Others(names, list[..k])|;
    } else {
      at := |list|;
      NoneKnown(names, list);
      OthersConcat(names, list, [Bare(desired)]);
      OthersSingle(names, Bare(desired));
    }
  }

  /** Planning again changes nothing exactly when the desired spec is one of the known ones. */
  lemma ReplanningIsNoOpIff(names: Names, list: seq<Entry>, desired: string)
    ensures Installed(names, Installed(names, list, desired), desired) == Installed(names, list, desired) <==> names.Knows(desired)
  {
    var after := Installed(names, list, desired);
    var at := InstalledMeaning(names, list, desired);
    KeeperExists(names, after);
    if names.Knows(desired) {
      var k: nat :| IsKeeper(names, after, k) && Installed(names, after, desired) == Kept(names, after, k, desired);
      assert names.Matches(after[at]);
      KeptMeaning(names, after, k, desired);
      OnlyMatch(names, after, k, at);
      KeptAgain(names, after, k, desired);
    } else {
      assert Installed(names, after, desired) == after + [Bare(desired)];
    }
  }

  lemma OnlyMatch(names: Names, list: seq<Entry>, a: nat, b: nat)
    requires KnownCount(names, list) == 1 && a < |list| && b < |list| && names.Matches(list[a]) && names.Matches(list[b])
    ensures a == b
    ensures forall i | 0 <= i < |list| && i != a :: !names.Matches(list[i])
  {
    hide Others, KnownCount, Names.Matches;
    OthersSplit(names, list, a);
    NoneKnown(names, list[..a]);
    NoneKnown(names, list[a + 1..]);
    forall i | 0 <= i < a ensures !names.Matches(list[i]) {
      assert list[..a][i] == list[i];
    }
    forall i | a < i < |list| ensures !names.Matches(list[i]) {
      assert list[a + 1..][i - a - 1] == list[i];
    }
  }

  lemma KeptAgain(names: Names, list: seq<Entry>, k: nat, desired: string)
    requires k < |list| && list[k].spec == desired && forall i | 0 <= i < |list| && i != k :: !names.Matches(list[i])
    ensures Kept(names, list, k, desired) == list
  {
    hide Others, KnownCount;
    NoneKnown(names, list[..k]);
    NoneKnown(names, list[k + 1..]);
    assert list == list[..k] + [list[k]] + list[k + 1..];
  }

  /** Uninstalling leaves no known entry, and uninstalling again changes nothing. */
  lemma UninstalledMeaning(names: Names, list: seq<Entry>)
    ensures KnownCount(names, Others(names, list)) == 0
    ensures Others(names, Others(names, list)) == Others(names, list)
    ensures forall e | e in Others(names, list) :: e in list && !names.Matches(e)
  {
    OthersAreUnknown(names, list);
    NoneKnown(names, Others(names, list));
    OthersFrom(names, list);
  }

  lemma {:induction false} OthersFrom(names: Names, list: seq<Entry>)
    ensures forall e | e in Others(names, list) :: e in list
  {
    if list != [] {
      OthersFrom(names, list[..|list| - 1]);
    }
  }
}

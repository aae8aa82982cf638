/**
 * Replacement of this plugin's own chunks in an array that other plugins share
 * and append to, possibly while the replacement is being rendered.
 */
module OwnedContext {
  import opened Wrappers

  class HostArray {
    var items: seq<string>

    constructor (items: seq<string>)
      ensures this.items == items
    {
      this.items := items;
    }
  }

  /** What was delivered last: the whole array then, and which slots of it are this plugin's. */
  datatype Delivery = Delivery(snapshot: seq<string>, start: nat, count: nat)

  datatype Outcome = Delivered | Conflict | RenderFailed

  datatype Rendering = Rendering(working: seq<string>, throws: bool)

  predicate WellPlaced(d: Delivery) { d.count > 0 && d.start + d.count <= |d.snapshot| }

  /** The array without the slots recorded as owned. */
  function Foreign(items: seq<string>, prior: Option<Delivery>): seq<string> {
    if prior.Some? && WellPlaced(prior.value) && prior.value.start + prior.value.count <= |items| then
      items[..prior.value.start] + items[prior.value.start + prior.value.count..]
    else items
  }

  function Owned(items: seq<string>, prior: Option<Delivery>): seq<string> {
    if prior.Some? && WellPlaced(prior.value) && prior.value.start + prior.value.count <= |items| then
      items[prior.value.start..prior.value.start + prior.value.count]
    else []
  }

  /** Chunks put at the end are the owned slots, and what was there before is foreign. */
  lemma Placed(rest: seq<string>, owned: seq<string>)
    ensures var prior := if owned == [] then None else Some(Delivery(rest + owned, |rest|, |owned|));
            && Foreign(rest + owned, prior) == rest && Owned(rest + owned, prior) == owned
  {
  }

  class OwnedContext {
    var previous: map<HostArray, Delivery>
    var active: set<HostArray>

    predicate Valid()
      reads this
    {
      forall t | t in previous :: WellPlaced(previous[t])
    }

    function Prior(target: HostArray): Option<Delivery>
      reads this`previous
    {
      if target in previous then Some(previous[target]) else None
    }

    constructor ()
      ensures Valid() && previous == map[] && active == {}
    {
      previous, active := map[], {};
    }

    /** The recorded delivery is still a prefix of the array. */
    predicate Untampered(target: HostArray)
      reads this`previous, target
    {
      target in previous ==> previous[target].snapshot <= target.items
    }

    /**
     * Renders on the array without the owned slots, while `host` is what happens
     * to the array meanwhile. It delivers exactly when no delivery is under way,
     * the recorded slots were untouched, the renderer only appended and did not
     * throw, and the array was only appended to. Then the foreign items keep
     * their order, followed by the new chunks; otherwise nothing is written.
     */
    method Replace(target: HostArray, render: seq<string> -> Rendering, host: seq<string> -> seq<string>) returns (outcome: Outcome)
      requires Valid()
      modifies this, target
      ensures Valid() && active == old(active)
      ensures forall t | t != target :: (t in previous <==> t in old(previous)) && (t in previous ==> previous[t] == old(previous)[t])
      ensures outcome.Delivered? <==>
              && target !in old(active) && old(Untampered(target))
              && var base := old(Foreign(target.items, Prior(target)));
                 !render(base).throws && base <= render(base).working && old(target.items) <= host(old(target.items))
      ensures outcome.Delivered? ==>
              var base := old(Foreign(target.items, Prior(target)));
              && Foreign(target.items, Prior(target)) == base + host(old(target.items))[|old(target.items)|..]
              && Owned(target.items, Prior(target)) == render(base).working[|base|..]
              && Untampered(target)
              // the new chunks stand behind everything foreign
              && target.items == base + host(old(target.items))[|old(target.items)|..] + render(base).working[|base|..]
      ensures !outcome.Delivered? ==> previous == old(previous)
      ensures !outcome.Delivered? ==>
              target.items == if target in old(active) || !old(Untampered(target)) then old(target.items) else host(old(target.items))
    {
      if target in active {
        return Conflict;
      }
      var prior := Prior(target);
      if prior.Some? && !(prior.value.snapshot <= target.items) {
        return Conflict;
      }
      active := active + {target};
      var snapshot := target.items;
      var base := snapshot;
      if prior.Some? {
        base := snapshot[..prior.value.start] + snapshot[prior.value.start + prior.value.count..];
      }
      var rendering := render(base);
      target.items := host(snapshot);
      active := active - {target};
      if rendering.throws {
        return RenderFailed;
      }
      if !(base <= rendering.working) || !(snapshot <= target.items) {
        return Conflict;
      }
      var foreignAppend, owned := target.items[|snapshot|..], rendering.working[|base|..];
      var start := |base| + |foreignAppend|;
      target.items := base + foreignAppend + owned;
      if owned != [] {
        previous := previous[target := Delivery(target.items, start, |owned|)];
      } else {
        previous := map t | t in previous && t != target :: previous[t];
      }
      Placed(base + foreignAppend, owned);
      outcome := Delivered;
    }
  }

  /** What happens to one array: somebody appends, or this plugin's hook runs while somebody appends. */
  datatype Event = Append(items: seq<string>) | Hook(chunks: seq<string>, throws: bool, meanwhile: seq<string>)

  function Appended(events: seq<Event>): seq<string> {
    if events == [] then []
    else
      var last := events[|events| - 1];
      Appended(events[..|events| - 1]) + if last.Append? then last.items else last.meanwhile
  }

  function LastDelivered(events: seq<Event>, initial: seq<string>): seq<string> {
    if events == [] then initial
    else
      var last := events[|events| - 1];
      if last.Hook? && !last.throws then last.chunks else LastDelivered(events[..|events| - 1], initial)
  }

  /** Appending leaves the recorded slots where they are. */
  lemma AppendKeepsOwned(items: seq<string>, prior: Option<Delivery>, more: seq<string>)
    requires prior.Some? ==> WellPlaced(prior.value) && prior.value.snapshot <= items
    ensures Foreign(items + more, prior) == Foreign(items, prior) + more
    ensures Owned(items + more, prior) == Owned(items, prior)
  {
    if prior.Some? {
      var d := prior.value;
      assert (items + more)[d.start + d.count..] == items[d.start + d.count..] + more;
    }
  }

  /** One hook run, with somebody appending meanwhile. */
  method RunHook(owner: OwnedContext, target: HostArray, chunks: seq<string>, throws: bool, meanwhile: seq<string>)
    requires owner.Valid() && target !in owner.active && owner.Untampered(target)
    modifies owner, target
    ensures owner.Valid() && owner.Untampered(target) && owner.active == old(owner.active)
    ensures Foreign(target.items, owner.Prior(target)) == old(Foreign(target.items, owner.Prior(target))) + meanwhile
    ensures Owned(target.items, owner.Prior(target)) == if throws then old(Owned(target.items, owner.Prior(target))) else chunks
  {
    hide Foreign, Owned;
    ghost var before, base := target.items, Foreign(target.items, owner.Prior(target));
    AppendKeepsOwned(before, owner.Prior(target), meanwhile);
    assert (before + meanwhile)[|before|..] == meanwhile && (base + chunks)[|base|..] == chunks;
    var outcome := owner.Replace(target, base => Rendering(base + chunks, throws), items => items + meanwhile);
  }

  /**
   * Over any sequence of foreign appends and hook runs, failing ones included,
   * the foreign items are all there in their order, and of this plugin exactly
   * the chunks of its last successful run.
   */
  method Serve(owner: OwnedContext, target: HostArray, events: seq<Event>)
    requires owner.Valid() && target !in owner.active && owner.Untampered(target)
    modifies owner, target
    ensures owner.Valid() && owner.Untampered(target)
    ensures Foreign(target.items, owner.Prior(target)) == old(Foreign(target.items, owner.Prior(target))) + Appended(events)
    ensures Owned(target.items, owner.Prior(target)) == LastDelivered(events, old(Owned(target.items, owner.Prior(target))))
  {
    hide Foreign, Owned, Appended, LastDelivered, OwnedContext.Untampered, OwnedContext.Valid, OwnedContext.Prior;
    ghost var foreign, owned := Foreign(target.items, owner.Prior(target)), Owned(target.items, owner.Prior(target));
    HistoryBegins(owned);
    for i := 0 to |events|
      invariant owner.Valid() && owner.Untampered(target) && target !in owner.active
      invariant Foreign(target.items, owner.Prior(target)) == foreign + Appended(events[..i])
      invariant Owned(target.items, owner.Prior(target)) == LastDelivered(events[..i], owned)
    {
      HistoryGrows(events, i, owned);
      match events[i] {
        case Append(items) => AppendItems(owner, target, items);
        case Hook(chunks, throws, meanwhile) => RunHook(owner, target, chunks, throws, meanwhile);
      }
    }
    assert events[..|events|] == events;
  }

  lemma HistoryBegins(initial: seq<string>)
    ensures Appended([]) == [] && LastDelivered([], initial) == initial
  {
  }

  lemma HistoryGrows(events: seq<Event>, i: nat, initial: seq<string>)
    requires i < |events|
    ensures Appended(events[..i + 1]) == Appended(events[..i]) + if events[i].Append? then events[i].items else events[i].meanwhile
    ensures LastDelivered(events[..i + 1], initial)
         == if events[i].Hook? && !events[i].throws then events[i].chunks else LastDelivered(events[..i], initial)
  {
    assert events[..i + 1][..i] == events[..i];
  }

  /** Somebody appends. */
  method AppendItems(owner: OwnedContext, target: HostArray, items: seq<string>)
    requires owner.Valid() && owner.Untampered(target)
    modifies target
    ensures owner.Untampered(target)
    ensures Foreign(target.items, owner.Prior(target)) == old(Foreign(target.items, owner.Prior(target))) + items
    ensures Owned(target.items, owner.Prior(target)) == old(Owned(target.items, owner.Prior(target)))
  {
    hide Foreign, Owned;
    AppendKeepsOwned(target.items, owner.Prior(target), items);
    target.items := target.items + items;
  }
}

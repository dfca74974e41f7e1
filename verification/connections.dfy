/**
 * The per-owner list of the connect-map and what `disconnect` does to it.
 *
 * `disconnect` walks the list with an array iterator and removes the entry it
 * has just read with an in-place splice. The iterator's position does not
 * move back, so the entry that slides into the freed slot is never read:
 * it stays in the list whatever its signal. `SpliceSweep` is that walk;
 * `Retain` and `Released` are the removal of every selected entry that the
 * walk was meant to perform.
 */
module Connections {
  import opened Wrappers
  import opened SettingsStore

  /** One subscription: the id the store issued and the signal it listens to. */
  datatype Connection = Connection(id: nat, signal: string)

  /**
   * Whether `disconnect(owner, signal)` acts on `c`. The signal argument is
   * tested for truthiness, so a missing signal and the empty string both
   * select every entry.
   */
  predicate Selected(c: Connection, signal: Option<string>)
  {
    signal.None? || signal.value == "" || c.signal == signal.value
  }

  /** The store `disconnect(id)` calls for the given entries, in order. */
  function DisconnectCalls(cs: seq<Connection>): (calls: seq<StoreCall>)
    ensures |calls| == |cs|
    ensures forall k :: 0 <= k < |cs| ==> calls[k] == DisconnectCall(cs[k].id)
  {
    if cs == [] then []
    else DisconnectCalls(cs[..|cs| - 1]) + [DisconnectCall(cs[|cs| - 1].id)]
  }

  /** The ids of the given entries, in order. */
  function Ids(cs: seq<Connection>): (ids: seq<nat>)
    ensures |ids| == |cs|
    ensures forall k :: 0 <= k < |cs| ==> ids[k] == cs[k].id
  {
    if cs == [] then []
    else Ids(cs[..|cs| - 1]) + [cs[|cs| - 1].id]
  }

  /** `disconnect(id)` is called once for every entry that carries `id`. */
  lemma {:induction false} DisconnectCallsCountIds(cs: seq<Connection>, id: nat)
    ensures multiset(DisconnectCalls(cs))[DisconnectCall(id)] == multiset(Ids(cs))[id]
  {
    if cs != [] {
      DisconnectCallsCountIds(cs[..|cs| - 1], id);
    }
  }

  /** The outcome of one `disconnect` walk: the list left behind and the entries taken out. */
  datatype Sweep = Sweep(kept: seq<Connection>, removed: seq<Connection>)

  /**
   * The for…of walk with an in-place splice: a selected entry is removed
   * and the entry right behind it is passed over and kept.
   */
  function SpliceSweep(cs: seq<Connection>, signal: Option<string>): (r: Sweep)
    ensures multiset(r.kept) + multiset(r.removed) == multiset(cs)
    decreases |cs|
  {
    if cs == [] then Sweep([], [])
    else if !Selected(cs[0], signal) then
      var rest := SpliceSweep(cs[1..], signal);
      assert cs == [cs[0]] + cs[1..];
      Sweep([cs[0]] + rest.kept, rest.removed)
    else if |cs| == 1 then Sweep([], [cs[0]])
    else
      var rest := SpliceSweep(cs[2..], signal);
      assert cs == [cs[0]] + [cs[1]] + cs[2..];
      Sweep([cs[1]] + rest.kept, [cs[0]] + rest.removed)
  }

  /**
   * The walk from the iterator's point of view: `cs` is the list as it
   * stands and `next` the index the iterator reads next.
   */
  function SweepFrom(cs: seq<Connection>, next: nat, signal: Option<string>): (r: Sweep)
    decreases |cs| - next
  {
    if next >= |cs| then Sweep(cs, [])
    else if !Selected(cs[next], signal) then SweepFrom(cs, next + 1, signal)
    else
      var rest := SweepFrom(cs[..next] + cs[next + 1..], next + 1, signal);
      Sweep(rest.kept, [cs[next]] + rest.removed)
  }

  /** The slices a walk takes around the entry at `next`. */
  lemma Slices(cs: seq<Connection>, next: nat)
    requires next < |cs|
    ensures cs[..next + 1] == cs[..next] + [cs[next]]
    ensures cs[next..] == [cs[next]] + cs[next + 1..]
    ensures cs[next..][0] == cs[next] && cs[next..][1..] == cs[next + 1..]
    ensures (cs[..next] + cs[next + 1..])[..next] == cs[..next]
    ensures (cs[..next] + cs[next + 1..])[next..] == cs[next + 1..]
  {
  }

  lemma Regroup(a: seq<Connection>, b: seq<Connection>, c: seq<Connection>)
    ensures a + (b + c) == a + b + c
  {
  }

  /** From any point on, the walk does to the entries it has not read what `SpliceSweep` does. */
  lemma {:induction false} SweepFromRest(cs: seq<Connection>, next: nat, signal: Option<string>)
    requires next <= |cs|
    ensures SweepFrom(cs, next, signal)
         == Sweep(cs[..next] + SpliceSweep(cs[next..], signal).kept, SpliceSweep(cs[next..], signal).removed)
    decreases |cs| - next
  {
    if next == |cs| {
      assert cs[..next] == cs && cs[next..] == [];
    } else {
      Slices(cs, next);
      var rest := cs[next..];
      if !Selected(cs[next], signal) {
        SweepFromRest(cs, next + 1, signal);
        Regroup(cs[..next], [cs[next]], SpliceSweep(cs[next + 1..], signal).kept);
      } else if next + 1 == |cs| {
        assert cs[..next] + cs[next + 1..] == cs[..next];
      } else {
        var shorter := cs[..next] + cs[next + 1..];
        SlicesAfterRemoval(cs, next);
        SweepFromRest(shorter, next + 1, signal);
        Regroup(cs[..next], [cs[next + 1]], SpliceSweep(cs[next + 2..], signal).kept);
      }
    }
  }

  /** The slices of the list left when the walk removes the entry at `next`. */
  lemma SlicesAfterRemoval(cs: seq<Connection>, next: nat)
    requires next + 1 < |cs|
    ensures (cs[..next] + cs[next + 1..])[..next + 1] == cs[..next] + [cs[next + 1]]
    ensures (cs[..next] + cs[next + 1..])[next + 1..] == cs[next + 2..]
    ensures cs[next..][1] == cs[next + 1]
    ensures cs[next..][2..] == cs[next + 2..]
  {
  }

  /**
   * The for…of loop of `disconnect` over one owner's list: each selected
   * entry is disconnected and spliced out of the list in place, while the
   * iterator moves on by one. Returns the list as the loop leaves it and
   * the entries it disconnected, in order.
   */
  method SpliceWalk(cs: seq<Connection>, signal: Option<string>) returns (connections: seq<Connection>, disconnected: seq<Connection>)
    ensures SpliceSweep(cs, signal) == Sweep(connections, disconnected)
  {
    connections, disconnected := cs, [];
    // The array iterator's position: the index of the entry it reads next.
    var next := 0;
    while next < |connections|
      invariant SweepFrom(cs, 0, signal) == Joined(disconnected, SweepFrom(connections, next, signal))
      decreases |connections| - next
    {
      var connection := connections[next];
      next := next + 1;
      if Selected(connection, signal) {
        // Entries are distinct objects, so indexOf finds the entry just read, one place behind the iterator.
        var index := next - 1;
        SweepFromRemoves(connections, index, disconnected, signal);
        connections := connections[..index] + connections[index + 1..];
        disconnected := disconnected + [connection];
      } else {
        SweepFromSkips(connections, next - 1, signal);
      }
    }
    SweepFromEnd(connections, next, disconnected, signal);
    SweepFromRest(cs, 0, signal);
    assert cs[..0] == [] && cs[0..] == cs;
  }

  /** A walk's result after `removed` were already taken out. */
  function Joined(removed: seq<Connection>, r: Sweep): Sweep
  {
    Sweep(r.kept, removed + r.removed)
  }

  lemma SweepFromSkips(cs: seq<Connection>, next: nat, signal: Option<string>)
    requires next < |cs| && !Selected(cs[next], signal)
    ensures SweepFrom(cs, next, signal) == SweepFrom(cs, next + 1, signal)
  {
  }

  lemma SweepFromRemoves(cs: seq<Connection>, next: nat, removed: seq<Connection>, signal: Option<string>)
    requires next < |cs| && Selected(cs[next], signal)
    ensures Joined(removed, SweepFrom(cs, next, signal))
         == Joined(removed + [cs[next]], SweepFrom(cs[..next] + cs[next + 1..], next + 1, signal))
  {
    var rest := SweepFrom(cs[..next] + cs[next + 1..], next + 1, signal);
    assert removed + ([cs[next]] + rest.removed) == (removed + [cs[next]]) + rest.removed;
  }

  lemma SweepFromEnd(cs: seq<Connection>, next: nat, removed: seq<Connection>, signal: Option<string>)
    requires next >= |cs|
    ensures Joined(removed, SweepFrom(cs, next, signal)) == Sweep(cs, removed)
  {
    assert removed + [] == removed;
  }

  /** Every entry the walk removes is selected by the signal argument. */
  lemma {:induction false} SweepRemovesOnlySelected(cs: seq<Connection>, signal: Option<string>)
    ensures forall c :: c in SpliceSweep(cs, signal).removed ==> Selected(c, signal)
    decreases |cs|
  {
    if cs != [] {
      if !Selected(cs[0], signal) {
        SweepRemovesOnlySelected(cs[1..], signal);
      } else if |cs| > 1 {
        SweepRemovesOnlySelected(cs[2..], signal);
      }
    }
  }

  /**
   * An entry whose signal is not selected is never removed: all its copies
   * stay in the list.
   */
  lemma UnselectedEntriesStay(cs: seq<Connection>, signal: Option<string>, c: Connection)
    requires !Selected(c, signal)
    ensures multiset(SpliceSweep(cs, signal).kept)[c] == multiset(cs)[c]
  {
    var r := SpliceSweep(cs, signal);
    SweepRemovesOnlySelected(cs, signal);
    assert c !in r.removed;
  }

  /** The entries at even positions 0, 2, 4, … */
  function Evens(cs: seq<Connection>): (r: seq<Connection>)
    ensures |r| == (|cs| + 1) / 2
    ensures forall k :: 0 <= k < |r| ==> r[k] == cs[2 * k]
    decreases |cs|
  {
    if cs == [] then []
    else if |cs| == 1 then [cs[0]]
    else [cs[0]] + Evens(cs[2..])
  }

  /** The entries at odd positions 1, 3, 5, … */
  function Odds(cs: seq<Connection>): (r: seq<Connection>)
    ensures |r| == |cs| / 2
    ensures forall k :: 0 <= k < |r| ==> r[k] == cs[2 * k + 1]
    decreases |cs|
  {
    if |cs| < 2 then []
    else [cs[1]] + Odds(cs[2..])
  }

  /**
   * Without a signal filter the walk removes exactly the entries at even
   * positions and keeps those at odd positions.
   */
  lemma {:induction false} SweepAllAlternates(cs: seq<Connection>, signal: Option<string>)
    requires signal.None? || signal.value == ""
    ensures SpliceSweep(cs, signal) == Sweep(Odds(cs), Evens(cs))
    decreases |cs|
  {
    if |cs| >= 2 {
      SweepAllAlternates(cs[2..], signal);
    }
  }

  /**
   * `disconnect(owner)` on a list of two or more subscriptions leaves some
   * of them connected and recorded.
   */
  lemma DisconnectAllLeavesSubscriptions(cs: seq<Connection>)
    requires |cs| >= 2
    ensures SpliceSweep(cs, None).kept != []
    ensures cs[1] in SpliceSweep(cs, None).kept
  {
    SweepAllAlternates(cs, None);
    assert SpliceSweep(cs, None).kept[0] == cs[1];
  }

  /** The smallest case: two subscriptions, one call, one survivor. */
  lemma TwoSubscriptionsOneSurvives()
    ensures SpliceSweep([Connection(1, "changed::a"), Connection(2, "changed::b")], None)
         == Sweep([Connection(2, "changed::b")], [Connection(1, "changed::a")])
  {
  }

  /** The entries the intended `disconnect` keeps: those not selected, in order. */
  function Retain(cs: seq<Connection>, signal: Option<string>): (kept: seq<Connection>)
    ensures |kept| <= |cs|
    ensures forall k :: 0 <= k < |kept| ==> !Selected(kept[k], signal)
  {
    if cs == [] then []
    else if Selected(cs[0], signal) then Retain(cs[1..], signal)
    else [cs[0]] + Retain(cs[1..], signal)
  }

  /** The intended `disconnect` keeps an entry exactly when the signal argument does not select it. */
  lemma {:induction false} RetainMembers(cs: seq<Connection>, signal: Option<string>, c: Connection)
    ensures c in Retain(cs, signal) <==> c in cs && !Selected(c, signal)
  {
    if cs != [] {
      RetainMembers(cs[1..], signal, c);
      assert c in cs <==> c == cs[0] || c in cs[1..];
    }
  }

  /** The entries the intended `disconnect` removes: those selected, in order. */
  function Released(cs: seq<Connection>, signal: Option<string>): (gone: seq<Connection>)
    ensures multiset(Retain(cs, signal)) + multiset(gone) == multiset(cs)
    ensures forall k :: 0 <= k < |gone| ==> Selected(gone[k], signal)
  {
    if cs == [] then []
    else
      assert cs == [cs[0]] + cs[1..];
      if Selected(cs[0], signal) then [cs[0]] + Released(cs[1..], signal)
      else Released(cs[1..], signal)
  }

  /**
   * The intended walk from the iterator's point of view: after a removal
   * the iterator stays put, so the entry that slid into the freed slot is
   * read next.
   */
  function RemoveFrom(cs: seq<Connection>, next: nat, signal: Option<string>): (r: Sweep)
    decreases |cs| - next, |cs|
  {
    if next >= |cs| then Sweep(cs, [])
    else if !Selected(cs[next], signal) then RemoveFrom(cs, next + 1, signal)
    else
      var rest := RemoveFrom(cs[..next] + cs[next + 1..], next, signal);
      Sweep(rest.kept, [cs[next]] + rest.removed)
  }

  /** The intended walk keeps `Retain` and removes `Released` of the part it has not read. */
  lemma {:induction false} RemoveFromRest(cs: seq<Connection>, next: nat, signal: Option<string>)
    requires next <= |cs|
    ensures RemoveFrom(cs, next, signal)
         == Sweep(cs[..next] + Retain(cs[next..], signal), Released(cs[next..], signal))
    decreases |cs| - next, |cs|
  {
    if next == |cs| {
      assert cs[..next] == cs && cs[next..] == [];
    } else {
      Slices(cs, next);
      if !Selected(cs[next], signal) {
        RemoveFromRest(cs, next + 1, signal);
        Regroup(cs[..next], [cs[next]], Retain(cs[next + 1..], signal));
      } else {
        RemoveFromRest(cs[..next] + cs[next + 1..], next, signal);
      }
    }
  }

  /**
   * The loop `disconnect` was meant to run: after a removal the position
   * stays, so the entry that slid into the freed slot is read next.
   */
  method RemoveEvery(cs: seq<Connection>, signal: Option<string>) returns (connections: seq<Connection>, disconnected: seq<Connection>)
    ensures connections == Retain(cs, signal) && disconnected == Released(cs, signal)
  {
    connections, disconnected := cs, [];
    var next := 0;
    while next < |connections|
      invariant RemoveFrom(cs, 0, signal) == Joined(disconnected, RemoveFrom(connections, next, signal))
      decreases |connections| - next, |connections|
    {
      var connection := connections[next];
      if Selected(connection, signal) {
        RemoveFromTakes(connections, next, disconnected, signal);
        connections := connections[..next] + connections[next + 1..];
        disconnected := disconnected + [connection];
      } else {
        RemoveFromKeeps(connections, next, signal);
        next := next + 1;
      }
    }
    RemoveFromEnd(connections, next, disconnected, signal);
    RemoveFromRest(cs, 0, signal);
    assert cs[..0] == [] && cs[0..] == cs;
  }

  lemma RemoveFromKeeps(cs: seq<Connection>, next: nat, signal: Option<string>)
    requires next < |cs| && !Selected(cs[next], signal)
    ensures RemoveFrom(cs, next, signal) == RemoveFrom(cs, next + 1, signal)
  {
  }

  lemma RemoveFromTakes(cs: seq<Connection>, next: nat, removed: seq<Connection>, signal: Option<string>)
    requires next < |cs| && Selected(cs[next], signal)
    ensures Joined(removed, RemoveFrom(cs, next, signal))
         == Joined(removed + [cs[next]], RemoveFrom(cs[..next] + cs[next + 1..], next, signal))
  {
    var rest := RemoveFrom(cs[..next] + cs[next + 1..], next, signal);
    assert removed + ([cs[next]] + rest.removed) == (removed + [cs[next]]) + rest.removed;
  }

  lemma RemoveFromEnd(cs: seq<Connection>, next: nat, removed: seq<Connection>, signal: Option<string>)
    requires next >= |cs|
    ensures Joined(removed, RemoveFrom(cs, next, signal)) == Sweep(cs, removed)
  {
    assert removed + [] == removed;
  }

  /** With no signal filter the intended `disconnect` empties the list. */
  lemma {:induction false} RetainWithoutFilterIsEmpty(cs: seq<Connection>, signal: Option<string>)
    requires signal.None? || signal.value == ""
    ensures Retain(cs, signal) == []
    ensures Released(cs, signal) == cs
  {
    if cs != [] {
      RetainWithoutFilterIsEmpty(cs[1..], signal);
      assert cs == [cs[0]] + cs[1..];
    }
  }

  /**
   * The walk does what was meant exactly when no selected entry sits
   * right behind another selected entry.
   */
  lemma {:induction false} SweepMatchesIntentWhenSeparated(cs: seq<Connection>, signal: Option<string>)
    requires forall k :: 0 <= k < |cs| - 1 ==> !(Selected(cs[k], signal) && Selected(cs[k + 1], signal))
    ensures SpliceSweep(cs, signal) == Sweep(Retain(cs, signal), Released(cs, signal))
    decreases |cs|
  {
    if cs == [] {
    } else if !Selected(cs[0], signal) {
      SweepMatchesIntentWhenSeparated(cs[1..], signal);
    } else if |cs| > 1 {
      assert !Selected(cs[1], signal);
      SweepMatchesIntentWhenSeparated(cs[2..], signal);
      assert cs[1..][1..] == cs[2..];
    }
  }

  /** Two adjacent selected entries make the walk keep a selected entry. */
  lemma {:induction false} SweepMissesWhenAdjacent(cs: seq<Connection>, signal: Option<string>, k: nat)
    requires k + 1 < |cs| && Selected(cs[k], signal) && Selected(cs[k + 1], signal)
    ensures SpliceSweep(cs, signal).kept != Retain(cs, signal)
    decreases |cs|
  {
    var r := SpliceSweep(cs, signal);
    RetainMembers(cs, signal, cs[1]);
    if k == 0 {
      assert r.kept[0] == cs[1];
    } else if !Selected(cs[0], signal) {
      SweepMissesWhenAdjacent(cs[1..], signal, k - 1);
      assert r.kept[1..] == SpliceSweep(cs[1..], signal).kept;
      assert Retain(cs, signal)[1..] == Retain(cs[1..], signal);
    } else if Selected(cs[1], signal) {
      assert r.kept[0] == cs[1];
    } else {
      SweepMissesWhenAdjacent(cs[2..], signal, k - 2);
      assert r.kept[1..] == SpliceSweep(cs[2..], signal).kept;
      assert cs[1..][1..] == cs[2..];
      assert Retain(cs, signal)[1..] == Retain(cs[2..], signal);
    }
  }
}

/** Two logs of one connection that differ only in sends the broker would not have noticed. */
module Thinning {
  import opened Wire

  /** What may be missing from the shorter log. */
  datatype Kind = Retractions | Writes

  /** A send of this kind that changes nothing the broker retains. */
  predicate Idle(kind: Kind, held: map<string, Payload>, send: Send) {
    match kind
    case Retractions => send.payload.None? && send.topic !in held
    case Writes => send.payload.Some? && send.topic in held && held[send.topic] == send.payload.value
  }

  /** `fewer` is `all` without some sends that were idle when they were made. */
  predicate Thinned(kind: Kind, base: map<string, Payload>, all: seq<Send>, fewer: seq<Send>) {
    if all == [] then fewer == []
    else
      var front, last := all[..|all| - 1], all[|all| - 1];
      || (fewer != [] && fewer[|fewer| - 1] == last && Thinned(kind, base, front, fewer[..|fewer| - 1]))
      || (Idle(kind, Retained(base, front), last) && Thinned(kind, base, front, fewer))
  }

  lemma ThinnedBoth(kind: Kind, base: map<string, Payload>, all: seq<Send>, fewer: seq<Send>, send: Send)
    requires Thinned(kind, base, all, fewer)
    ensures Thinned(kind, base, all + [send], fewer + [send])
  {
    assert (all + [send])[..|all|] == all;
    assert (fewer + [send])[..|fewer|] == fewer;
  }

  lemma ThinnedOne(kind: Kind, base: map<string, Payload>, all: seq<Send>, fewer: seq<Send>, send: Send)
    requires Thinned(kind, base, all, fewer) && Idle(kind, Retained(base, all), send)
    ensures Thinned(kind, base, all + [send], fewer)
  {
    assert (all + [send])[..|all|] == all;
  }

  lemma {:induction false} ThinnedHoldsTheSame(kind: Kind, base: map<string, Payload>, all: seq<Send>, fewer: seq<Send>)
    requires Thinned(kind, base, all, fewer)
    ensures Retained(base, all) == Retained(base, fewer) && |fewer| <= |all|
  {
    if all != [] {
      var front, last := all[..|all| - 1], all[|all| - 1];
      if fewer != [] && fewer[|fewer| - 1] == last && Thinned(kind, base, front, fewer[..|fewer| - 1]) {
        ThinnedHoldsTheSame(kind, base, front, fewer[..|fewer| - 1]);
      } else {
        ThinnedHoldsTheSame(kind, base, front, fewer);
      }
    }
  }

  /** A crash on the thinned log leaves what some crash on the full one would. */
  lemma {:induction false} ThinnedPrefix(kind: Kind, base: map<string, Payload>, all: seq<Send>, fewer: seq<Send>, k: nat)
    returns (j: nat)
    requires Thinned(kind, base, all, fewer) && k <= |fewer|
    ensures j <= |all| && Retained(base, all[..j]) == Retained(base, fewer[..k])
  {
    if k == |fewer| {
      j := |all|;
      assert all[..j] == all && fewer[..k] == fewer;
      ThinnedHoldsTheSame(kind, base, all, fewer);
    } else {
      var front, last := all[..|all| - 1], all[|all| - 1];
      if fewer[|fewer| - 1] == last && Thinned(kind, base, front, fewer[..|fewer| - 1]) {
        j := ThinnedPrefix(kind, base, front, fewer[..|fewer| - 1], k);
        assert fewer[..|fewer| - 1][..k] == fewer[..k];
      } else {
        j := ThinnedPrefix(kind, base, front, fewer, k);
      }
      assert front[..j] == all[..j];
    }
  }

  /** Two reconnects, the second losing whatever tail leaves the broker as the first did. */
  lemma SameReconnect(kind: Kind, all: Net, fewer: Net, k: nat) returns (j: nat)
    requires all.base == fewer.base && Thinned(kind, all.base, all.log, fewer.log)
    ensures Reconnected(all, j).base == Reconnected(fewer, k).base
  {
    j := ThinnedPrefix(kind, all.base, all.log, fewer.log, if k <= |fewer.log| then k else |fewer.log|);
  }
}

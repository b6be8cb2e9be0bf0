/** The round of a probe directory (src/wigo.go, threadLocalChecks): the list of its probes is brought towards what
    the directory lists now. Removing an element ends the walk over the list, so a round removes one name at most. */
module ProbeList {
  import opened Basics

  // ------------------------------------------------------------- specification

  /** The listed names not in the list yet, appended in order. */
  function Added(current: seq<string>, listing: seq<string>): seq<string> {
    if listing == [] then current
    else
      var last := |listing| - 1;
      var added := Added(current, listing[..last]);
      if listing[last] in added then added else added + [listing[last]]
  }

  /** The names the directory does not list any more, in list order. */
  function Stale(current: seq<string>, listing: seq<string>): seq<string> {
    if current == [] then []
    else (if current[0] in listing then [] else [current[0]]) + Stale(current[1..], listing)
  }

  /** The name a round removes, if any. */
  function Leaving(current: seq<string>, listing: seq<string>): set<string> {
    var stale := Stale(current, listing);
    if stale == [] then {} else {stale[0]}
  }

  /** Without its first stale name. */
  function WithoutFirst(current: seq<string>, listing: seq<string>): seq<string> {
    if current == [] then []
    else if current[0] in listing then [current[0]] + WithoutFirst(current[1..], listing)
    else current[1..]
  }

  function Round(current: seq<string>, listing: seq<string>): seq<string> {
    WithoutFirst(Added(current, listing), listing)
  }

  function Rounds(current: seq<string>, listing: seq<string>, k: nat): seq<string> {
    if k == 0 then current else Round(Rounds(current, listing, k - 1), listing)
  }

  // ------------------------------------------------------------------ the round

  class ProbeDirectory<Result> {
    var current: seq<string>
    var probes: map<string, Result>

    constructor (listing: seq<string>, probes: map<string, Result>)
      ensures current == listing && this.probes == probes
    {
      current, this.probes := listing, probes;
    }

    method DeleteProbeByName(name: string)
      modifies this`probes
      ensures probes == old(probes) - {name}
    {
      if name in probes {
        probes := probes - {name};
      }
    }

    method AddNew(listing: seq<string>)
      modifies this`current
      ensures current == Added(old(current), listing)
    {
      for n := 0 to |listing|
        invariant current == Added(old(current), listing[..n])
      {
        var known := IsIn(listing[n], current);
        assert listing[..n + 1][..n] == listing[..n];
        if !known {
          current := current + [listing[n]];
        }
      }
      assert listing[..|listing|] == listing;
    }

    method RemoveDeleted(listing: seq<string>)
      modifies this
      ensures current == WithoutFirst(old(current), listing)
      ensures probes == old(probes) - Leaving(old(current), listing)
    {
      var c := 0;
      while c < |current|
        invariant c <= |current| && current == old(current) && probes == old(probes)
        invariant forall i :: 0 <= i < c ==> current[i] in listing
      {
        var listed := IsIn(current[c], listing);
        if !listed {
          FirstStale(current, listing, c);
          var probeName := current[c];
          current := current[..c] + current[c + 1..];
          DeleteProbeByName(probeName);
          return;  // a removed element has no successor
        }
        c := c + 1;
      }
      NoneStale(current, listing);
    }

    method Update(listing: seq<string>)
      modifies this
      ensures current == Round(old(current), listing)
      ensures probes == old(probes) - Leaving(old(current), listing)
    {
      AddedIsListed(current, listing, listing);
      AddNew(listing);
      RemoveDeleted(listing);
    }
  }

  /** The search both passes make, always to the end. */
  method IsIn(name: string, names: seq<string>) returns (found: bool)
    ensures found <==> name in names
  {
    found := false;
    for j := 0 to |names|
      invariant found <==> name in names[..j]
    {
      if names[j] == name {
        found := true;
      }
    }
  }

  lemma {:induction false} FirstStale(current: seq<string>, listing: seq<string>, c: int)
    requires 0 <= c < |current| && current[c] !in listing && forall i :: 0 <= i < c ==> current[i] in listing
    ensures WithoutFirst(current, listing) == current[..c] + current[c + 1..]
    ensures Leaving(current, listing) == {current[c]}
  {
    if c > 0 {
      var rest := current[1..];
      FirstStale(rest, listing, c - 1);
      assert current[..c] == [current[0]] + rest[..c - 1] && current[c + 1..] == rest[c..];
      assert current[..c] + current[c + 1..] == [current[0]] + (rest[..c - 1] + rest[c..]);
    }
  }

  lemma {:induction false} NoneStale(current: seq<string>, listing: seq<string>)
    requires forall i :: 0 <= i < |current| ==> current[i] in listing
    ensures WithoutFirst(current, listing) == current && Stale(current, listing) == []
  {
    if current != [] {
      NoneStale(current[1..], listing);
    }
  }

  // ------------------------------------------------------------------ one round

  lemma {:induction false} StaleAppend(current: seq<string>, x: string, listing: seq<string>)
    ensures Stale(current + [x], listing) == Stale(current, listing) + if x in listing then [] else [x]
  {
    if current != [] {
      StaleAppend(current[1..], x, listing);
      assert (current + [x])[1..] == current[1..] + [x];
    }
  }

  /** Adding names the directory lists makes none stale. */
  lemma {:induction false} AddedIsListed(current: seq<string>, names: seq<string>, listing: seq<string>)
    requires forall i :: 0 <= i < |names| ==> names[i] in listing
    ensures Stale(Added(current, names), listing) == Stale(current, listing)
  {
    if names != [] {
      var last := |names| - 1;
      AddedIsListed(current, names[..last], listing);
      StaleAppend(Added(current, names[..last]), names[last], listing);
    }
  }

  lemma {:induction false} AddedHolds(current: seq<string>, names: seq<string>)
    ensures current <= Added(current, names)
    ensures forall x :: x in Added(current, names) <==> x in current || x in names
    ensures NoDuplicates(current) ==> NoDuplicates(Added(current, names))
  {
    if names != [] {
      var last := |names| - 1;
      AddedHolds(current, names[..last]);
      assert names == names[..last] + [names[last]];
    }
  }

  lemma {:induction false} WithoutFirstDrops(current: seq<string>, listing: seq<string>)
    ensures Stale(WithoutFirst(current, listing), listing) ==
            if Stale(current, listing) == [] then [] else Stale(current, listing)[1..]
  {
    if current != [] && current[0] in listing {
      WithoutFirstDrops(current[1..], listing);
    }
  }

  lemma {:induction false} WithoutFirstKeeps(current: seq<string>, listing: seq<string>)
    ensures forall x :: x in WithoutFirst(current, listing) ==> x in current
    ensures forall x :: x in current && x in listing ==> x in WithoutFirst(current, listing)
    ensures NoDuplicates(current) ==> NoDuplicates(WithoutFirst(current, listing))
  {
    if current != [] {
      WithoutFirstKeeps(current[1..], listing);
      assert current == [current[0]] + current[1..];
    }
  }

  /** After a round every listed name is in the list, and the longest stale one is gone. */
  lemma RoundReconciles(current: seq<string>, listing: seq<string>)
    ensures forall x :: x in listing ==> x in Round(current, listing)
    ensures forall x :: x in Round(current, listing) ==> x in current || x in listing
    ensures Stale(Round(current, listing), listing) ==
            if Stale(current, listing) == [] then [] else Stale(current, listing)[1..]
    ensures NoDuplicates(current) ==> NoDuplicates(Round(current, listing))
  {
    AddedIsListed(current, listing, listing);
    AddedHolds(current, listing);
    WithoutFirstDrops(Added(current, listing), listing);
    WithoutFirstKeeps(Added(current, listing), listing);
  }

  /** The result a round drops is that of the name which leaves the list, and no other. */
  lemma DropsWhatLeaves(current: seq<string>, listing: seq<string>)
    requires NoDuplicates(current)
    ensures Leaving(current, listing) == Elements(current) - Elements(Round(current, listing))
  {
    AddedIsListed(current, listing, listing);
    AddedHolds(current, listing);
    LeavesOnce(Added(current, listing), listing);
    forall x
      ensures x in Leaving(current, listing) <==> x in current && x !in Round(current, listing)
    {
      if x in Leaving(current, listing) {
        StaleAreListed(current, listing);
      }
      WithoutFirstKeeps(Added(current, listing), listing);
    }
  }

  lemma {:induction false} StaleAreListed(current: seq<string>, listing: seq<string>)
    ensures forall x :: x in Stale(current, listing) ==> x in current && x !in listing
  {
    if current != [] {
      StaleAreListed(current[1..], listing);
    }
  }

  lemma {:induction false} LeavesOnce(current: seq<string>, listing: seq<string>)
    requires NoDuplicates(current)
    ensures forall x :: x in current ==> (x !in WithoutFirst(current, listing) <==> x in Leaving(current, listing))
  {
    if current != [] {
      LeavesOnce(current[1..], listing);
      StaleAreListed(current[1..], listing);
      assert current == [current[0]] + current[1..];
    }
  }

  // ---------------------------------------------------------------- many rounds

  /** While the directory does not change, the stale names leave in order, one a round. */
  lemma {:induction false} RoundsDrain(current: seq<string>, listing: seq<string>, k: nat)
    ensures Stale(Rounds(current, listing, k), listing) ==
            var stale := Stale(current, listing); if k <= |stale| then stale[k..] else []
    ensures k > 0 ==> forall x :: x in listing ==> x in Rounds(current, listing, k)
    ensures NoDuplicates(current) ==> NoDuplicates(Rounds(current, listing, k))
  {
    if k > 0 {
      RoundsDrain(current, listing, k - 1);
      RoundReconciles(Rounds(current, listing, k - 1), listing);
    }
  }

  lemma {:induction false} StaleIsExtra(current: seq<string>, listing: seq<string>)
    ensures Stale(current, listing) == [] <==> forall x :: x in current ==> x in listing
  {
    if current != [] {
      StaleIsExtra(current[1..], listing);
      assert current == [current[0]] + current[1..];
    }
  }

  /** The list holds exactly the listed names after `k` rounds if and only if at most `k` names were stale; in
      particular a single round is not enough once two probes were deleted together. */
  lemma ReachesListingIff(current: seq<string>, listing: seq<string>, k: nat)
    requires k > 0
    ensures Elements(Rounds(current, listing, k)) == Elements(listing) <==> |Stale(current, listing)| <= k
  {
    var after := Rounds(current, listing, k);
    RoundsDrain(current, listing, k);
    StaleIsExtra(after, listing);
    if Elements(after) == Elements(listing) {
      forall x | x in after
        ensures x in listing
      {
        assert x in Elements(listing);
      }
    }
  }
}

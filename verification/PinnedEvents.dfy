// Pinning and unpinning the events of a room.
module PinnedEvents {
  import opened JsCollections

  // `Array.from(new Set(list))`: the first occurrence of each element.
  function Distinct(s: seq<string>): seq<string> {
    if s == [] then []
    else
      var d := Distinct(s[..|s| - 1]);
      if s[|s| - 1] in d then d else d + [s[|s| - 1]]
  }

  function Toggled(s: seq<string>, id: string): seq<string> {
    var d := Distinct(s);
    if id in d then Without(d, id) else d + [id]
  }

  // The room state holding the pinned events; `writes` counts the state events sent.
  class PinnedState {
    var pinned: seq<string>
    var writes: nat

    constructor (pinned: seq<string>)
      ensures this.pinned == pinned && writes == 0
    {
      this.pinned := pinned;
      writes := 0;
    }

    // `pinUnpinMessage`: a state event is sent only if the length of the list has changed.
    method PinUnpin(id: string)
      modifies this
      ensures |Toggled(old(pinned), id)| == |old(pinned)| ==> pinned == old(pinned) && writes == old(writes)
      ensures |Toggled(old(pinned), id)| != |old(pinned)| ==>
          pinned == Toggled(old(pinned), id) && writes == old(writes) + 1
    {
      var pinnedSet := Distinct(pinned);
      var wasPinned := id in pinnedSet;
      if wasPinned {
        pinnedSet := Without(pinnedSet, id);
      } else {
        pinnedSet := pinnedSet + [id];
      }
      if |pinned| != |pinnedSet| {
        pinned := pinnedSet;
        writes := writes + 1;
      }
    }
  }

  lemma {:induction false} DistinctSpec(s: seq<string>)
    ensures NoDup(Distinct(s)) && |Distinct(s)| <= |s|
    ensures forall x :: x in Distinct(s) <==> x in s
    ensures NoDup(s) ==> Distinct(s) == s
  {
    if s != [] {
      var n := |s| - 1;
      DistinctSpec(s[..n]);
      assert forall x :: x in s <==> x in s[..n] || x == s[n];
    }
  }

  lemma WithoutShorter(s: seq<string>, id: string)
    requires id in s
    ensures |Without(s, id)| < |s|
  {
    ExceptSize(s, {id});
    assert id in {id};
  }

  // A toggle goes unwritten exactly when it would pin an event and the stored list has as many
  // entries as the new one, that is, holds exactly one entry too many.
  lemma WrittenExactly(s: seq<string>, id: string)
    ensures |Toggled(s, id)| != |s| <==> id in s || |s| != |Distinct(s)| + 1
  {
    DistinctSpec(s);
    if id in s {
      WithoutShorter(Distinct(s), id);
    }
  }

  // With an event pinned twice, pinning another one is lost.
  lemma PinIsLost()
    ensures Toggled(["$a", "$a"], "$b") == ["$a", "$b"] && |["$a", "$b"]| == |["$a", "$a"]|
  {
    assert ["$a", "$a"][..1] == ["$a"] && ["$a"][..0] == [];
    assert Distinct(["$a"]) == ["$a"];
    assert Distinct(["$a", "$a"]) == ["$a"];
  }

  // On a list without duplicates every toggle is written.
  lemma TogglesAreWritten(s: seq<string>, id: string)
    requires NoDup(s)
    ensures |Toggled(s, id)| != |s| && NoDup(Toggled(s, id))
    ensures Toggled(s, id) == if id in s then Without(s, id) else s + [id]
  {
    DistinctSpec(s);
    WrittenExactly(s, id);
    ExceptNoDup(s, {id});
  }

  function After(s: seq<string>, toggles: seq<string>): seq<string> {
    if toggles == [] then s else Toggled(After(s, toggles[..|toggles| - 1]), toggles[|toggles| - 1])
  }

  // The parity of the toggles of an event.
  predicate Flipped(toggles: seq<string>, id: string) {
    toggles != [] && (Flipped(toggles[..|toggles| - 1], id) != (toggles[|toggles| - 1] == id))
  }

  predicate Pinned(s: seq<string>, toggles: seq<string>, id: string) {
    (id in s) != Flipped(toggles, id)
  }

  // The toggled events in the order of their last toggles.
  function ByLastToggle(toggles: seq<string>): seq<string> {
    if toggles == [] then []
    else Without(ByLastToggle(toggles[..|toggles| - 1]), toggles[|toggles| - 1]) + [toggles[|toggles| - 1]]
  }

  lemma {:induction false} InByLastToggle(toggles: seq<string>, id: string)
    ensures id in ByLastToggle(toggles) <==> id in toggles
    ensures id !in toggles ==> !Flipped(toggles, id)
  {
    if toggles != [] {
      var n := |toggles| - 1;
      InByLastToggle(toggles[..n], id);
      InExcept(ByLastToggle(toggles[..n]), {toggles[n]});
      assert id in toggles <==> id in toggles[..n] || id == toggles[n];
    }
  }

  function Touched(toggles: seq<string>): set<string> {
    set x | x in toggles
  }

  // The toggled events that end up unpinned.
  function Unpinned(s: seq<string>, toggles: seq<string>): set<string> {
    set x | x in toggles && !Pinned(s, toggles, x)
  }

  // The events that were never toggled, in their old order, then those toggled to be pinned, in the
  // order of their last toggles.
  function Survivors(s: seq<string>, toggles: seq<string>): seq<string> {
    Except(s, Touched(toggles)) + Except(ByLastToggle(toggles), Unpinned(s, toggles))
  }

  lemma InSurvivors(s: seq<string>, toggles: seq<string>, id: string)
    ensures id in Survivors(s, toggles) <==> Pinned(s, toggles, id)
  {
    InExcept(s, Touched(toggles));
    InExcept(ByLastToggle(toggles), Unpinned(s, toggles));
    InByLastToggle(toggles, id);
  }

  lemma FlippedSnoc(toggles: seq<string>, id: string, x: string)
    ensures Flipped(toggles + [id], x) <==> Flipped(toggles, x) != (id == x)
  {
    assert (toggles + [id])[..|toggles|] == toggles;
  }

  // One more toggle among the events toggled before.
  lemma TouchedSnoc(s: seq<string>, toggles: seq<string>, id: string)
    ensures var all := toggles + [id];
            var before := Except(Except(ByLastToggle(toggles), Unpinned(s, toggles)), {id});
            Except(ByLastToggle(all), Unpinned(s, all)) == if Pinned(s, toggles, id) then before else before + [id]
  {
    var all := toggles + [id];
    var last := ByLastToggle(toggles);
    assert all[..|toggles|] == toggles;
    forall x
      ensures Pinned(s, all, x) <==> Pinned(s, toggles, x) != (id == x)
      ensures x in last <==> x in toggles
    {
      FlippedSnoc(toggles, id, x);
      InByLastToggle(toggles, x);
    }
    ExceptAppend(Without(last, id), id, Unpinned(s, all));
    ExceptTwice(last, {id}, Unpinned(s, all));
    ExceptTwice(last, Unpinned(s, toggles), {id});
    ExceptSame(last, {id} + Unpinned(s, all), Unpinned(s, toggles) + {id});
  }

  lemma SurvivorsSnoc(s: seq<string>, toggles: seq<string>, id: string)
    ensures Survivors(s, toggles + [id]) ==
            if Pinned(s, toggles, id) then Without(Survivors(s, toggles), id) else Survivors(s, toggles) + [id]
  {
    hide ByLastToggle, Unpinned, Except, Pinned;
    var all := toggles + [id];
    var old1 := Except(s, Touched(toggles));
    var old2 := Except(ByLastToggle(toggles), Unpinned(s, toggles));
    ExceptTwice(s, Touched(toggles), {id});
    assert Touched(all) == Touched(toggles) + {id};
    TouchedSnoc(s, toggles, id);
    ExceptConcat(old1, old2, {id});
    if !Pinned(s, toggles, id) {
      InSurvivors(s, toggles, id);
      ExceptNone(Survivors(s, toggles), {id});
    }
  }

  // From a list without duplicates, any sequence of toggles leaves exactly the events whose initial
  // membership is flipped by the parity of their toggles: untouched ones first and in their old
  // order, then the others in the order in which they were last pinned, without duplicates.
  lemma {:induction false} TogglesDecide(s: seq<string>, toggles: seq<string>)
    requires NoDup(s)
    ensures After(s, toggles) == Survivors(s, toggles) && NoDup(After(s, toggles))
    ensures forall id :: id in After(s, toggles) <==> Pinned(s, toggles, id)
  {
    hide Toggled, Survivors;
    if toggles == [] {
      NoToggles(s);
    } else {
      var n := |toggles| - 1;
      TogglesDecide(s, toggles[..n]);
      TogglesAreWritten(After(s, toggles[..n]), toggles[n]);
      SurvivorsSnoc(s, toggles[..n], toggles[n]);
      assert toggles == toggles[..n] + [toggles[n]];
    }
    forall id
      ensures id in After(s, toggles) <==> Pinned(s, toggles, id)
    {
      InSurvivors(s, toggles, id);
    }
  }

  lemma NoToggles(s: seq<string>)
    ensures Survivors(s, []) == s
  {
    ExceptNone(s, Touched([]));
    assert s + [] == s;
  }
}

/** The volunteer page's selection of opportunities: a list of ids that a
    click toggles. */
module Volunteer {
  import Seqs

  /** The selection before any click. */
  const InitialSelection: seq<string> := []

  /** `toggleOpportunity`: an absent id is appended; a present id is removed,
      every occurrence of it, the other ids keeping their order. */
  function Toggle(selected: seq<string>, id: string): (r: seq<string>)
    ensures id !in selected ==> r == selected + [id]
    ensures id in selected ==> id !in r && Seqs.IsSubseq(r, selected)
    ensures id in selected ==> forall x :: x != id ==> multiset(r)[x] == multiset(selected)[x]
    ensures id in r <==> id !in selected
    ensures forall x :: x != id ==> (x in r <==> x in selected)
  {
    if id in selected then Seqs.Filter(selected, (x: string) => x != id)
    else selected + [id]
  }

  /** A duplicate-free selection stays duplicate-free. */
  lemma ToggleKeepsNoDup(selected: seq<string>, id: string)
    requires Seqs.NoDup(selected)
    ensures Seqs.NoDup(Toggle(selected, id))
  {
    if id in selected {
      Seqs.SubseqNoDup(Toggle(selected, id), selected);
    }
  }

  /** The selection after a series of clicks. */
  function Clicks(selected: seq<string>, ids: seq<string>): seq<string>
    decreases |ids|
  {
    if ids == [] then selected else Clicks(Toggle(selected, ids[0]), ids[1..])
  }

  /** Starting from the empty selection, no id is ever selected twice. */
  lemma {:induction false} SelectionHasNoDuplicates(ids: seq<string>)
    ensures Seqs.NoDup(Clicks(InitialSelection, ids))
  {
    ClicksKeepNoDup(InitialSelection, ids);
  }

  lemma {:induction false} ClicksKeepNoDup(selected: seq<string>, ids: seq<string>)
    requires Seqs.NoDup(selected)
    ensures Seqs.NoDup(Clicks(selected, ids))
    decreases |ids|
  {
    if ids != [] {
      ToggleKeepsNoDup(selected, ids[0]);
      ClicksKeepNoDup(Toggle(selected, ids[0]), ids[1..]);
    }
  }

  /** Toggling twice restores the selection as a set of ids. */
  lemma ToggleTwiceSameMembers(selected: seq<string>, id: string)
    ensures forall x :: x in Toggle(Toggle(selected, id), id) <==> x in selected
  {
  }

  /** ...but not always as a sequence: a selected id comes back at the end. */
  lemma ToggleTwiceReorders()
    ensures Toggle(Toggle(["education", "healthcare"], "education"), "education") == ["healthcare", "education"]
  {
  }
}

/** The expand/collapse toggle shared by the practice history (`togglePlanDetails`) and the
    member-teams list (`toggleTeamDetails`): `expanded === id ? null : id`. */
module Disclosure {
  import opened Wrappers

  /** Collapses `id` when it is the expanded entry, otherwise expands it (and only it). */
  function Toggle<T(==)>(expanded: Option<T>, id: T): (r: Option<T>)
    ensures expanded == Some(id) ==> r.None?
    ensures expanded != Some(id) ==> r == Some(id)
  {
    if expanded == Some(id) then None else Some(id)
  }

  /** Toggling the same entry twice restores the state exactly when nothing or that entry was
      expanded; from another expanded entry it leaves everything collapsed. */
  lemma ToggleTwice<T>(expanded: Option<T>, id: T)
    ensures Toggle(Toggle(expanded, id), id) == expanded <==> expanded.None? || expanded == Some(id)
    ensures expanded.Some? && expanded != Some(id) ==> Toggle(Toggle(expanded, id), id).None?
  {
  }
}

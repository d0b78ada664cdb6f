/** The form-creator picker: only the two agent roles may create a form, and
    a checkbox per role toggles it in the selected-creators list. */
module FormCreatorSelector {
  import opened Seqs
  import opened Selection

  datatype CreatorRole = CreatorRole(key: string, labelText: string)

  /** The `creatorRoles` table, in display order. */
  const CreatorRoles: seq<CreatorRole> := [
    CreatorRole("team.buy", "Buyer Agent"),
    CreatorRole("team.sell", "Seller Agent")
  ]

  /** Only `team.buy` and `team.sell` are offered, each once. */
  lemma OnlyAgentsOffered(c: CreatorRole)
    requires c in CreatorRoles
    ensures c.key == "team.buy" || c.key == "team.sell"
    ensures |CreatorRoles| == 2 && CreatorRoles[0].key != CreatorRoles[1].key
  {
  }

  /** `handleChange(role)`: the list passed to `onCreatorsChange`. */
  function ToggleCreator(selectedCreators: seq<string>, role: string): (r: seq<string>)
    ensures role !in selectedCreators ==> r == selectedCreators + [role]
    ensures role in selectedCreators ==> role !in r
  {
    Toggle(selectedCreators, role)
  }

  /** The creators other than the toggled one keep their relative order, and
      checking then unchecking an unselected creator restores the list. */
  lemma ToggleCreatorOrder(selectedCreators: seq<string>, role: string)
    ensures Filter(ToggleCreator(selectedCreators, role), Other(role)) == Filter(selectedCreators, Other(role))
    ensures role !in selectedCreators ==> ToggleCreator(ToggleCreator(selectedCreators, role), role) == selectedCreators
  {
    ToggleKeepsOrder(selectedCreators, role);
    if role !in selectedCreators {
      ToggleTwice(selectedCreators, role);
    }
  }
}

/** The signer-role picker: four deal roles, each with its signature counts,
    and a checkbox per role that toggles it in the selected-roles list. */
module SignerRoleSelector {
  import opened JsValues
  import opened Seqs
  import opened Selection

  /** A role's signing details; `defaultCount` is the `default` property. */
  datatype RoleDetails = RoleDetails(
    integrationRole: string,
    meviDealRole: string,
    min: nat,
    max: nat,
    defaultCount: nat,
    additionalSignaturePage: Option<nat>)

  datatype Role = Role(key: string, labelText: string, details: RoleDetails)

  /** The `roles` table, in display order. */
  const Roles: seq<Role> := [
    Role("client.buy", "Buyer", RoleDetails("Buyer", "client.buy", 1, 6, 2, Some(3))),
    Role("client.sell", "Seller", RoleDetails("Seller", "client.sell", 1, 6, 2, Some(3))),
    Role("team.buy", "Buyer Agent", RoleDetails("BuyerAgent", "team.buy", 1, 1, 1, None)),
    Role("team.sell", "Seller Agent", RoleDetails("SellerAgent", "team.sell", 1, 1, 1, None))
  ]

  /** The keys of the roles offered, in display order. */
  function RoleKeys(): (keys: seq<string>)
    ensures |keys| == |Roles|
    ensures forall i :: 0 <= i < |Roles| ==> keys[i] == Roles[i].key
  {
    seq(|Roles|, i requires 0 <= i < |Roles| => Roles[i].key)
  }

  predicate IsClientRole(key: string) {
    key == "client.buy" || key == "client.sell"
  }

  /** Every role's counts satisfy `min <= default <= max`; client roles allow
      six signers with two by default and an extra signature page at 3, team
      roles exactly one. Each role's deal role is its own key. */
  lemma RoleDetailsBounds(i: nat)
    requires i < |Roles|
    ensures Roles[i].details.min <= Roles[i].details.defaultCount <= Roles[i].details.max
    ensures Roles[i].details.meviDealRole == Roles[i].key
    ensures IsClientRole(Roles[i].key) ==>
      Roles[i].details.max == 6 && Roles[i].details.defaultCount == 2 && Roles[i].details.additionalSignaturePage == Some(3)
    ensures !IsClientRole(Roles[i].key) ==>
      Roles[i].details.max == 1 && Roles[i].details.defaultCount == 1 && Roles[i].details.additionalSignaturePage.None?
  {
  }

  /** The four role keys are distinct. */
  lemma RoleKeysDistinct()
    ensures NoDuplicates(RoleKeys())
    ensures RoleKeys() == ["client.buy", "client.sell", "team.buy", "team.sell"]
  {
  }

  /** `handleChange(role)`: the list passed to `onRolesChange`. */
  function ToggleRole(selectedRoles: seq<string>, role: string): (r: seq<string>)
    ensures role in r <==> role !in selectedRoles
    ensures forall other :: other != role ==> (other in r <==> other in selectedRoles)
  {
    ToggleMembershipAll(selectedRoles, role);
    Toggle(selectedRoles, role)
  }

  lemma ToggleMembershipAll(selected: seq<string>, x: string)
    ensures x in Toggle(selected, x) <==> x !in selected
    ensures forall y :: y != x ==> (y in Toggle(selected, x) <==> y in selected)
  {
    ToggleMembership(selected, x, x);
    forall y | y != x ensures y in Toggle(selected, x) <==> y in selected {
      ToggleMembership(selected, x, y);
    }
  }

  /** Clicking the checkboxes keeps the selection a duplicate-free list of
      offered role keys. */
  lemma ToggleRoleKeepsValid(selectedRoles: seq<string>, i: nat)
    requires i < |Roles|
    requires NoDuplicates(selectedRoles)
    requires forall k :: 0 <= k < |selectedRoles| ==> selectedRoles[k] in RoleKeys()
    ensures NoDuplicates(ToggleRole(selectedRoles, Roles[i].key))
    ensures forall k :: 0 <= k < |ToggleRole(selectedRoles, Roles[i].key)| ==> ToggleRole(selectedRoles, Roles[i].key)[k] in RoleKeys()
  {
    ToggleNoDuplicates(selectedRoles, Roles[i].key);
    assert RoleKeys()[i] == Roles[i].key;
    ToggleWithin(selectedRoles, Roles[i].key, set k | k in RoleKeys());
  }
}

/** The permission tables of the dashboard (permissions/constants.ts):
    which actions each resource offers, and the display names of resources
    and actions.

    The enums' string values live in a types file that is not part of this
    model, so resources and actions are datatypes; a value read from the
    database that matches no enum member is kept as its raw text.
 */
module Permissions {
  datatype Resource = Dashboard | Users | Roles | PermissionsPage | Settings | AiManager
  datatype Action = View | Create | Edit | Delete | Export

  /** A resource as stored: an enum member or some other text. */
  datatype ResourceValue = KnownResource(resource: Resource) | OtherResource(raw: string)
  /** An action as stored: an enum member or some other text. */
  datatype ActionValue = KnownAction(action: Action) | OtherAction(raw: string)

  /** `RESOURCE_ACTIONS`: every resource can be viewed, and the user list is
      the only resource with anything more. */
  function ResourceActions(r: Resource): (acts: seq<Action>)
    ensures |acts| > 0 && acts[0] == View
    ensures forall i, j :: 0 <= i < j < |acts| ==> acts[i] != acts[j]
    ensures forall a :: a in acts && a != View ==> r == Users
    ensures Export !in acts
  {
    match r
    case Users => [View, Create, Delete, Edit]
    case _ => [View]
  }

  /** The user list offers exactly viewing, creating, deleting and editing. */
  lemma UsersActions()
    ensures forall a :: a in ResourceActions(Users) <==> a != Export
  {
  }

  /** Every resource except the user list offers viewing alone, and no
      resource offers exporting although it has a display name. */
  lemma ViewOnlyElsewhere(r: Resource)
    ensures r != Users ==> forall a :: a in ResourceActions(r) <==> a == View
    ensures forall s :: Export !in ResourceActions(s)
    ensures ActionDisplayName(KnownAction(Export)) != []
  {
  }

  /** The name table of `getResourceDisplayName`. */
  function ResourceName(r: Resource): string {
    match r
    case Dashboard => "Dashboard"
    case Users => "Users"
    case Roles => "Roles"
    case PermissionsPage => "Permissions"
    case AiManager => "AI Manager"
    case Settings => "Settings"
  }

  /** The name table of `getActionDisplayName`. */
  function ActionName(a: Action): string {
    match a
    case View => "View"
    case Create => "Create"
    case Edit => "Edit"
    case Delete => "Delete"
    case Export => "Export"
  }

  /** `getResourceDisplayName`: the table's name for a member (the table
      covers every member with a non-empty name, so the `|| resource`
      fallback is never reached for one), the raw text otherwise. */
  function ResourceDisplayName(v: ResourceValue): (name: string)
    ensures v.OtherResource? ==> name == v.raw
    ensures v.KnownResource? ==> name == ResourceName(v.resource) && name != []
  {
    match v
    case KnownResource(r) => ResourceName(r)
    case OtherResource(raw) => raw
  }

  /** `getActionDisplayName`, likewise. */
  function ActionDisplayName(v: ActionValue): (name: string)
    ensures v.OtherAction? ==> name == v.raw
    ensures v.KnownAction? ==> name == ActionName(v.action) && name != []
  {
    match v
    case KnownAction(a) => ActionName(a)
    case OtherAction(raw) => raw
  }

  /** The lookups are total and tell the members apart: the fallback is
      never taken for a member, and no two members share a name. */
  lemma ResourceNamesDistinct(r: Resource, s: Resource)
    ensures ResourceDisplayName(KnownResource(r)) == ResourceDisplayName(KnownResource(s)) <==> r == s
  {
    if r != s {
      assert |ResourceName(r)| != |ResourceName(s)| || ResourceName(r)[0] != ResourceName(s)[0];
    }
  }

  lemma ActionNamesDistinct(a: Action, b: Action)
    ensures ActionDisplayName(KnownAction(a)) == ActionDisplayName(KnownAction(b)) <==> a == b
  {
    if a != b {
      assert |ActionName(a)| != |ActionName(b)| || ActionName(a)[0] != ActionName(b)[0];
    }
  }
}

/**
 * The permission entry shared by accounts (custom permissions) and roles: a
 * module/sub-module pair and three scope blocks, each with three boolean
 * actions. Both schemas declare the same shape; only the account schema gives
 * the actions a default (`false`), so an entry stored on a role may carry
 * actions that are simply absent.
 */
module Permissions {
  import opened Wrappers

  /** The three actions of a scope block; `None` is an action the request left out. */
  datatype Actions = Actions(view: Option<bool>, edit: Option<bool>, delete: Option<bool>)

  /** One module/sub-module grant (the schema field `module` is `moduleName` here, `module` being a keyword). */
  datatype PermissionEntry = PermissionEntry(
    moduleName: Option<string>,
    subModule: Option<string>,
    auto: Actions,
    ownData: Actions,
    otherUserData: Actions)

  datatype Scope = Auto | OwnData | OtherUserData
  datatype Action = View | Edit | Delete

  function ScopeBlock(e: PermissionEntry, scope: Scope): Actions {
    match scope
    case Auto => e.auto
    case OwnData => e.ownData
    case OtherUserData => e.otherUserData
  }

  function ActionFlag(a: Actions, action: Action): Option<bool> {
    match action
    case View => a.view
    case Edit => a.edit
    case Delete => a.delete
  }

  /** The flag an entry holds for one scope and one action. */
  function Flag(e: PermissionEntry, scope: Scope, action: Action): Option<bool> {
    ActionFlag(ScopeBlock(e, scope), action)
  }

  /** An entry with every scope block empty, as when a request names only the module. */
  const Unset := Actions(None, None, None)

  /** The account schema's defaults: every absent action becomes `false`. */
  function DefaultActions(a: Actions): (r: Actions)
    ensures forall action :: ActionFlag(r, action) == Some(ActionFlag(a, action).GetOr(false))
  {
    Actions(Some(a.view.GetOr(false)), Some(a.edit.GetOr(false)), Some(a.delete.GetOr(false)))
  }

  /** An entry as the account schema stores it: each of the nine flags present, absent ones `false`. */
  function WithAccountDefaults(e: PermissionEntry): (r: PermissionEntry)
    ensures r.moduleName == e.moduleName && r.subModule == e.subModule
    ensures forall scope, action :: Flag(r, scope, action) == Some(Flag(e, scope, action).GetOr(false))
  {
    e.(auto := DefaultActions(e.auto),
       ownData := DefaultActions(e.ownData),
       otherUserData := DefaultActions(e.otherUserData))
  }

  /** Every one of the nine flags of `e` is present. */
  predicate Complete(e: PermissionEntry) {
    forall scope, action :: Flag(e, scope, action).Some?
  }

  function AccountDefaultsAll(es: seq<PermissionEntry>): (r: seq<PermissionEntry>)
    ensures |r| == |es|
    ensures forall i :: 0 <= i < |es| ==> r[i] == WithAccountDefaults(es[i])
  {
    seq(|es|, i requires 0 <= i < |es| => WithAccountDefaults(es[i]))
  }

  /**
   * Applying the account defaults completes an entry, keeps every flag the
   * request did set, and changes nothing when applied again.
   */
  lemma AccountDefaultsComplete(e: PermissionEntry)
    ensures Complete(WithAccountDefaults(e))
    ensures forall scope, action :: Flag(e, scope, action).Some? ==>
      Flag(WithAccountDefaults(e), scope, action) == Flag(e, scope, action)
    ensures WithAccountDefaults(WithAccountDefaults(e)) == WithAccountDefaults(e)
  {
  }

  /** An entry whose request set no action grants nothing: all nine flags are `false`. */
  lemma UnsetDefaultsToFalse(moduleName: Option<string>, subModule: Option<string>)
    ensures forall scope, action ::
      Flag(WithAccountDefaults(PermissionEntry(moduleName, subModule, Unset, Unset, Unset)), scope, action) == Some(false)
  {
  }
}

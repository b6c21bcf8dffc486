/**
 * The administrator's user list (backend/controllers/admin.controller.js):
 * every user with a role derived from the two flags, behind an admin gate.
 */
module AdminController {
  import opened Js
  import opened Store

  /** One entry of the list (without the timestamps, which are copied). */
  datatype UserView = UserView(
    id: Id, name: string, email: string, role: string, isAdmin: bool, isGovernmentAuthorized: bool)

  /** The role: "Admin" for an administrator whatever else holds, otherwise
      "Government" for an authorised user, otherwise "User". */
  function RoleOf(u: User): (role: string)
    ensures role == "Admin" <==> Flag(u.isAdmin)
    ensures role == "Government" <==> !Flag(u.isAdmin) && Flag(u.isGovernmentAuthorized)
    ensures role == "User" <==> !Flag(u.isAdmin) && !Flag(u.isGovernmentAuthorized)
  {
    if Flag(u.isAdmin) then "Admin"
    else if Flag(u.isGovernmentAuthorized) then "Government"
    else "User"
  }

  /** The entry for user `id`: its role and both flags, absent ones read
      as false. */
  function View(id: Id, u: User): (v: UserView)
    ensures v.id == id && v.name == u.name && v.email == u.email
    ensures v.role == RoleOf(u)
    ensures v.isAdmin == Flag(u.isAdmin) && v.isGovernmentAuthorized == Flag(u.isGovernmentAuthorized)
  {
    UserView(id, u.name, u.email, RoleOf(u), Flag(u.isAdmin), Flag(u.isGovernmentAuthorized))
  }

  /** `getAllUsers`: 403 (`None`) unless the caller is an administrator;
      otherwise one entry per listed user, in listing order. */
  function GetAllUsers(callerIsAdmin: bool, ids: seq<Id>, users: map<Id, User>): (r: Option<seq<UserView>>)
    requires forall k :: k in ids ==> k in users
    ensures r.None? <==> !callerIsAdmin
    ensures r.Some? ==> |r.value| == |ids| && forall i :: 0 <= i < |ids| ==> r.value[i] == View(ids[i], users[ids[i]])
  {
    if !callerIsAdmin then None
    else Some(seq(|ids|, i requires 0 <= i < |ids| => View(ids[i], users[ids[i]])))
  }

  /** The role agrees with the flags reported beside it: exactly one role,
      and "Admin" exactly when `isAdmin` is reported true. */
  lemma RoleMatchesFlags(callerIsAdmin: bool, ids: seq<Id>, users: map<Id, User>)
    requires forall k :: k in ids ==> k in users
    ensures var r := GetAllUsers(callerIsAdmin, ids, users);
            r.Some? ==> forall i :: 0 <= i < |r.value| ==>
              && r.value[i].role in ["Admin", "Government", "User"]
              && (r.value[i].role == "Admin" <==> r.value[i].isAdmin)
              && (r.value[i].role == "Government" <==> !r.value[i].isAdmin && r.value[i].isGovernmentAuthorized)
  {
  }
}

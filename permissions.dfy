/** Client-side workspace permission checks (frontend/src/lib/permissions.ts).
    Every check is a total function of the signed-in user, the current
    workspace and, for deletion, the file; a null user or workspace is `None`. */
module Permissions {
  import opened Wrappers

  /** A member's role inside one workspace. `Editor` is the role whose value
      is "user" (enum UserRole: "admin", "user", "reader"). */
  datatype UserRole = Admin | Editor | Reader

  /** A user record. Inside `Workspace.members` its `role` is the member's
      workspace role; the signed-in user's own `role` is never consulted. */
  datatype User = User(id: int, email: string, name: string, role: UserRole, picture: Option<string>)

  datatype Workspace = Workspace(id: int, name: string, description: Option<string>,
                                 ownerId: int, members: seq<User>)

  /** A stored file; `uploadedBy` is the id of the user who imported it. */
  datatype DataRoomFile = DataRoomFile(id: int, name: string, mimeType: string, size: int,
                                       googleDriveId: Option<string>, uploadedBy: int)

  /** Index of the member that `members.find((m) => m.id === id)` returns:
      the first one with that id. */
  function FirstMemberIndex(members: seq<User>, id: int): (r: Option<nat>)
    ensures r.Some? ==> r.value < |members| && members[r.value].id == id
    ensures r.Some? ==> forall j :: 0 <= j < r.value ==> members[j].id != id
    ensures r.None? <==> forall j :: 0 <= j < |members| ==> members[j].id != id
  {
    if members == [] then None
    else if members[0].id == id then Some(0)
    else match FirstMemberIndex(members[1..], id)
      case Some(k) => Some(k + 1)
      case None => None
  }

  /** `members.find((m) => m.id === id)` */
  function FindMember(members: seq<User>, id: int): Option<User> {
    match FirstMemberIndex(members, id)
    case Some(k) => Some(members[k])
    case None => None
  }

  /** `members.some((m) => m.id === id)` */
  predicate HasMember(members: seq<User>, id: int) {
    exists j :: 0 <= j < |members| && members[j].id == id
  }

  /** Admins and "user"-role members may import files. */
  function CanImportFiles(user: Option<User>, workspace: Option<Workspace>): bool {
    if user.None? || workspace.None? then false
    else match FindMember(workspace.value.members, user.value.id)
      case None => false
      case Some(member) => member.role == Admin || member.role == Editor
  }

  /** Admins may delete any file, "user"-role members only their own, readers none. */
  function CanDeleteFile(user: Option<User>, workspace: Option<Workspace>, file: DataRoomFile): bool {
    if user.None? || workspace.None? then false
    else match FindMember(workspace.value.members, user.value.id)
      case None => false
      case Some(member) =>
        if member.role == Admin then true
        else if member.role == Editor then file.uploadedBy == user.value.id
        else false
  }

  /** Every member may view files. */
  function CanViewFile(user: Option<User>, workspace: Option<Workspace>): bool {
    if user.None? || workspace.None? then false
    else HasMember(workspace.value.members, user.value.id)
  }

  /** Every member may download files. */
  function CanDownloadFile(user: Option<User>, workspace: Option<Workspace>): bool {
    if user.None? || workspace.None? then false
    else HasMember(workspace.value.members, user.value.id)
  }

  /** The role of the first member whose id is the user's, if any. */
  function GetUserRole(user: Option<User>, workspace: Option<Workspace>): Option<UserRole> {
    if user.None? || workspace.None? then None
    else match FindMember(workspace.value.members, user.value.id)
      case None => None
      case Some(member) => Some(member.role)
  }

  /** With no signed-in user or no current workspace every check denies. */
  lemma NullDeniesEverything(user: Option<User>, workspace: Option<Workspace>, file: DataRoomFile)
    requires user.None? || workspace.None?
    ensures !CanImportFiles(user, workspace) && !CanDeleteFile(user, workspace, file)
    ensures !CanViewFile(user, workspace) && !CanDownloadFile(user, workspace)
    ensures GetUserRole(user, workspace) == None
  {
  }

  /** A user whose id matches no member is denied everything, whatever the
      workspace's `ownerId` says. */
  lemma NonMemberDeniedEverything(user: User, workspace: Workspace, file: DataRoomFile)
    requires forall j :: 0 <= j < |workspace.members| ==> workspace.members[j].id != user.id
    ensures !CanImportFiles(Some(user), Some(workspace))
    ensures !CanDeleteFile(Some(user), Some(workspace), file)
    ensures !CanViewFile(Some(user), Some(workspace)) && !CanDownloadFile(Some(user), Some(workspace))
    ensures GetUserRole(Some(user), Some(workspace)) == None
  {
  }

  /** Importing is allowed exactly for admins and "user"-role members; a
      reader never imports. */
  lemma ImportAllowedIffAdminOrEditor(user: Option<User>, workspace: Option<Workspace>)
    ensures CanImportFiles(user, workspace)
        <==> GetUserRole(user, workspace) == Some(Admin) || GetUserRole(user, workspace) == Some(Editor)
    ensures GetUserRole(user, workspace) == Some(Reader) ==> !CanImportFiles(user, workspace)
  {
  }

  /** Deletion by role: admins always, "user"-role members exactly for the
      files they uploaded, readers and non-members never. */
  lemma DeleteAllowedByRole(user: User, workspace: Workspace, file: DataRoomFile)
    ensures GetUserRole(Some(user), Some(workspace)) == Some(Admin)
        ==> CanDeleteFile(Some(user), Some(workspace), file)
    ensures GetUserRole(Some(user), Some(workspace)) == Some(Editor)
        ==> (CanDeleteFile(Some(user), Some(workspace), file) <==> file.uploadedBy == user.id)
    ensures GetUserRole(Some(user), Some(workspace)) == Some(Reader)
        ==> !CanDeleteFile(Some(user), Some(workspace), file)
    ensures GetUserRole(Some(user), Some(workspace)) == None
        ==> !CanDeleteFile(Some(user), Some(workspace), file)
  {
  }

  /** `some` and `find` agree on whether a member with the id exists. */
  lemma HasMemberIffFound(members: seq<User>, id: int)
    ensures HasMember(members, id) <==> FirstMemberIndex(members, id).Some?
  {
    if HasMember(members, id) {
      var j :| 0 <= j < |members| && members[j].id == id;
      assert !(forall i :: 0 <= i < |members| ==> members[i].id != id);
    }
  }

  /** Viewing and downloading agree everywhere and are granted exactly to
      members, whatever their role. */
  lemma ViewAndDownloadAreMembership(user: Option<User>, workspace: Option<Workspace>)
    ensures CanViewFile(user, workspace) == CanDownloadFile(user, workspace)
    ensures CanViewFile(user, workspace) <==> GetUserRole(user, workspace).Some?
  {
    if user.Some? && workspace.Some? {
      HasMemberIffFound(workspace.value.members, user.value.id);
    }
  }

  /** Changing members' roles without changing their ids does not change who
      may view or download. */
  lemma ViewIgnoresRoles(user: Option<User>, workspace: Workspace, relabelled: Workspace)
    requires |relabelled.members| == |workspace.members|
    requires forall j :: 0 <= j < |workspace.members| ==> relabelled.members[j].id == workspace.members[j].id
    ensures CanViewFile(user, Some(relabelled)) == CanViewFile(user, Some(workspace))
    ensures CanDownloadFile(user, Some(relabelled)) == CanDownloadFile(user, Some(workspace))
  {
    if user.Some? {
      var id := user.value.id;
      if HasMember(workspace.members, id) {
        var j :| 0 <= j < |workspace.members| && workspace.members[j].id == id;
        assert relabelled.members[j].id == id;
      }
      if HasMember(relabelled.members, id) {
        var j :| 0 <= j < |relabelled.members| && relabelled.members[j].id == id;
        assert workspace.members[j].id == id;
      }
    }
  }

  /** Whoever may import or delete may also view: all three need membership. */
  lemma ImportOrDeleteImpliesView(user: Option<User>, workspace: Option<Workspace>, file: DataRoomFile)
    ensures CanImportFiles(user, workspace) ==> CanViewFile(user, workspace)
    ensures CanDeleteFile(user, workspace, file) ==> CanViewFile(user, workspace)
  {
    ViewAndDownloadAreMembership(user, workspace);
  }

  /** The first member with the user's id decides every check; members listed
      after it do not matter. */
  lemma FirstMatchDecides(user: User, workspace: Workspace, k: nat, file: DataRoomFile)
    requires k < |workspace.members| && workspace.members[k].id == user.id
    requires forall j :: 0 <= j < k ==> workspace.members[j].id != user.id
    ensures GetUserRole(Some(user), Some(workspace)) == Some(workspace.members[k].role)
    ensures CanImportFiles(Some(user), Some(workspace))
        <==> workspace.members[k].role in {Admin, Editor}
    ensures CanDeleteFile(Some(user), Some(workspace), file)
        <==> workspace.members[k].role == Admin
             || (workspace.members[k].role == Editor && file.uploadedBy == user.id)
  {
    var r := FirstMemberIndex(workspace.members, user.id);
    assert r.Some? by {
      assert workspace.members[k].id == user.id;
    }
  }

  /** `find` over a list extended at the end returns the same member when
      the original list already had one. */
  lemma {:induction false} FirstMemberIndexAppend(members: seq<User>, more: seq<User>, id: int)
    requires FirstMemberIndex(members, id).Some?
    ensures FirstMemberIndex(members + more, id) == FirstMemberIndex(members, id)
  {
    if members[0].id != id {
      assert (members + more)[1..] == members[1..] + more;
      FirstMemberIndexAppend(members[1..], more, id);
    }
  }

  /** Adding members after the user's own entry changes no decision. */
  lemma LaterMembersIrrelevant(user: User, workspace: Workspace, more: seq<User>, file: DataRoomFile)
    requires GetUserRole(Some(user), Some(workspace)).Some?
    ensures var extended := workspace.(members := workspace.members + more);
      GetUserRole(Some(user), Some(extended)) == GetUserRole(Some(user), Some(workspace))
      && CanImportFiles(Some(user), Some(extended)) == CanImportFiles(Some(user), Some(workspace))
      && CanDeleteFile(Some(user), Some(extended), file) == CanDeleteFile(Some(user), Some(workspace), file)
  {
    FirstMemberIndexAppend(workspace.members, more, user.id);
    var k := FirstMemberIndex(workspace.members, user.id).value;
    assert (workspace.members + more)[k] == workspace.members[k];
  }

  /** The signed-in user's own global `role` is never consulted. */
  lemma GlobalRoleIgnored(user: User, role: UserRole, workspace: Option<Workspace>, file: DataRoomFile)
    ensures var other := Some(user.(role := role));
      CanImportFiles(other, workspace) == CanImportFiles(Some(user), workspace)
      && CanDeleteFile(other, workspace, file) == CanDeleteFile(Some(user), workspace, file)
      && CanViewFile(other, workspace) == CanViewFile(Some(user), workspace)
      && GetUserRole(other, workspace) == GetUserRole(Some(user), workspace)
  {
  }
}

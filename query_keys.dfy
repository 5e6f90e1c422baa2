/** Cache keys of the query library (frontend/src/lib/queryKeys.ts). A key
    is an array whose elements are strings or numbers; the cache matches
    keys by prefix when it invalidates. */
module QueryKeys {

  datatype KeyPart = Text(s: string) | Number(n: int)

  type QueryKey = seq<KeyPart>

  /** `QUERY_KEYS.files.all(workspaceId)` */
  function FilesAll(workspaceId: int): QueryKey {
    [Text("files"), Number(workspaceId)]
  }

  /** `QUERY_KEYS.files.detail(workspaceId, id)` */
  function FilesDetail(workspaceId: int, id: int): QueryKey {
    [Text("files"), Number(workspaceId), Number(id)]
  }

  /** `QUERY_KEYS.workspaces.all` */
  const WorkspacesAll: QueryKey := [Text("workspaces")]

  /** `QUERY_KEYS.workspaces.detail(id)` */
  function WorkspacesDetail(id: int): QueryKey {
    [Text("workspaces"), Number(id)]
  }

  predicate IsPrefix(p: QueryKey, key: QueryKey) {
    |p| <= |key| && key[..|p|] == p
  }

  /** A detail key extends its list key by the id. */
  lemma DetailExtendsAll(workspaceId: int, id: int)
    ensures FilesDetail(workspaceId, id) == FilesAll(workspaceId) + [Number(id)]
    ensures WorkspacesDetail(id) == WorkspacesAll + [Number(id)]
  {
  }

  /** Different workspaces, or different files, have different keys. */
  lemma KeysInjective(w1: int, id1: int, w2: int, id2: int)
    ensures FilesAll(w1) == FilesAll(w2) ==> w1 == w2
    ensures FilesDetail(w1, id1) == FilesDetail(w2, id2) ==> w1 == w2 && id1 == id2
    ensures WorkspacesDetail(id1) == WorkspacesDetail(id2) ==> id1 == id2
  {
    if FilesAll(w1) == FilesAll(w2) { assert FilesAll(w1)[1] == FilesAll(w2)[1]; }
    if FilesDetail(w1, id1) == FilesDetail(w2, id2) {
      assert FilesDetail(w1, id1)[1] == FilesDetail(w2, id2)[1];
      assert FilesDetail(w1, id1)[2] == FilesDetail(w2, id2)[2];
    }
    if WorkspacesDetail(id1) == WorkspacesDetail(id2) {
      assert WorkspacesDetail(id1)[1] == WorkspacesDetail(id2)[1];
    }
  }

  /** Invalidating a workspace's file list reaches the detail key of a file
      exactly when the file belongs to that workspace. */
  lemma FilesAllCoversOwnDetails(workspaceId: int, otherWorkspace: int, id: int)
    ensures IsPrefix(FilesAll(workspaceId), FilesDetail(otherWorkspace, id)) <==> workspaceId == otherWorkspace
  {
    if IsPrefix(FilesAll(workspaceId), FilesDetail(otherWorkspace, id)) {
      assert FilesDetail(otherWorkspace, id)[..2][1] == FilesAll(workspaceId)[1];
    }
  }

  /** The workspace list key covers every workspace detail key. */
  lemma WorkspacesAllCoversDetails(id: int)
    ensures IsPrefix(WorkspacesAll, WorkspacesDetail(id))
  {
  }

  /** Neither key equals or covers the other. */
  predicate Separate(a: QueryKey, b: QueryKey) {
    a != b && !IsPrefix(a, b) && !IsPrefix(b, a)
  }

  /** Keys whose first elements differ are separate. */
  lemma FirstElementSeparates(a: QueryKey, b: QueryKey)
    requires a != [] && b != [] && a[0] != b[0]
    ensures Separate(a, b)
  {
  }

  /** File keys and workspace keys never match each other, either way round,
      because their first elements differ. */
  lemma FileAndWorkspaceKeysDisjoint(workspaceId: int, fileId: int, otherId: int)
    ensures Separate(FilesAll(workspaceId), WorkspacesAll)
    ensures Separate(FilesAll(workspaceId), WorkspacesDetail(otherId))
    ensures Separate(FilesDetail(workspaceId, fileId), WorkspacesAll)
    ensures Separate(FilesDetail(workspaceId, fileId), WorkspacesDetail(otherId))
  {
    FirstElementSeparates(FilesAll(workspaceId), WorkspacesAll);
    FirstElementSeparates(FilesAll(workspaceId), WorkspacesDetail(otherId));
    FirstElementSeparates(FilesDetail(workspaceId, fileId), WorkspacesAll);
    FirstElementSeparates(FilesDetail(workspaceId, fileId), WorkspacesDetail(otherId));
  }
}

// The project service (api/projects/service.py): the access decision table and
// the create, get, list, update and delete operations over the projects table.
module Projects {
  import opened Enums
  import opened Errors
  import opened Paging

  datatype Project = Project(id: nat, owner: int, name: string, description: Option<string>, isPublic: bool)

  /**
   * The input of create and update. `isPublic` is optional because the create
   * path tolerates a missing value; the update path assigns it as given.
   */
  datatype ProjectInput = ProjectInput(name: string, description: Option<string>, isPublic: Option<bool>)

  /**
   * check_project_access. Without raising it answers whether access is granted;
   * with raising a refusal becomes PermissionDenied on a public project and
   * NotFound on a private one, so a private project of someone else looks absent.
   */
  function CheckProjectAccess(p: Project, userId: int, access: AccessType, raiseException: bool): (r: Result<bool>)
    ensures p.owner == userId ==> r == Success(true)
    ensures p.owner != userId && access == WRITE ==> r != Success(true)
    ensures p.owner != userId && access == READ ==> (r == Success(true) <==> p.isPublic)
    ensures !raiseException ==> r.Success?
    ensures raiseException ==> r.Failure? || r.value
    ensures r.Failure? && p.isPublic ==> r.error == PermissionDenied("update", "project")
    ensures r.Failure? && !p.isPublic ==> r.error == NotFound("project", p.id)
  {
    if p.owner == userId then Success(true)
    else
      var access := access == READ && p.isPublic;
      if raiseException && !access then
        if p.isPublic then Failure(PermissionDenied("update", "project"))
        else Failure(NotFound("project", p.id))
      else Success(access)
  }

  /** The raising form refuses exactly when the non-raising form answers false. */
  lemma RaiseAgreesWithAnswer(p: Project, userId: int, access: AccessType)
    ensures CheckProjectAccess(p, userId, access, true).Success?
            <==> CheckProjectAccess(p, userId, access, false) == Success(true)
  {
  }

  /** WRITE access is the owner's alone, whatever the visibility. */
  lemma WriteIsOwnerOnly(p: Project, userId: int)
    ensures CheckProjectAccess(p, userId, WRITE, false) == Success(p.owner == userId)
  {
  }

  class ProjectStore {
    var projects: map<nat, Project>
    var nextId: nat

    ghost predicate Valid()
      reads this
    {
      nextId >= 1 && forall id :: id in projects ==> projects[id].id == id && 0 < id < nextId
    }

    constructor()
      ensures Valid() && projects == map[]
    {
      projects := map[];
      nextId := 1;
    }

    /** create_project: a new row owned by the caller, private unless asked otherwise. */
    method Create(userId: int, input: ProjectInput) returns (p: Project)
      requires Valid()
      modifies this
      ensures Valid()
      ensures p.id !in old(projects) && p.owner == userId
      ensures p.name == input.name && p.description == input.description
      ensures p.isPublic <==> input.isPublic == Some(true)
      ensures projects == old(projects)[p.id := p]
    {
      var isPublic := if input.isPublic.Some? then input.isPublic.value else false;
      p := Project(nextId, userId, input.name, input.description, isPublic);
      projects := projects[nextId := p];
      nextId := nextId + 1;
    }

    /** get_project: READ access, so public projects are visible to everybody. */
    method Get(projectId: nat, userId: int) returns (r: Result<Project>)
      requires Valid()
      ensures projectId !in projects ==> r == Failure(NotFound("Project", projectId))
      ensures projectId in projects ==>
                (r.Success? <==> projects[projectId].owner == userId || projects[projectId].isPublic)
      ensures r.Success? ==> projectId in projects && r.value == projects[projectId]
      ensures projectId in projects && r.Failure? ==> r.error == NotFound("project", projectId)
    {
      if projectId !in projects {
        return Failure(NotFound("Project", projectId));
      }
      var p := projects[projectId];
      var check := CheckProjectAccess(p, userId, READ, true);
      if check.Failure? {
        return Failure(check.error);
      }
      r := Success(p);
    }

    /** The ids of the caller's projects. */
    function OwnedIds(userId: int): set<nat>
      reads this
    {
      set id | id in projects && projects[id].owner == userId
    }

    /**
     * list_user_projects: the caller's own projects, newest first, then OFFSET
     * skip LIMIT limit. The k-th project listed has exactly skip + k of the
     * caller's projects newer than it.
     */
    function ListUserProjects(userId: int, skip: nat, limit: nat): (r: seq<Project>)
      requires Valid()
      reads this
      ensures forall k :: 0 <= k < |r| ==> r[k].id in projects && projects[r[k].id] == r[k]
      ensures forall k :: 0 <= k < |r| ==> r[k].owner == userId
      ensures forall i, j :: 0 <= i < j < |r| ==> r[i].id > r[j].id
      ensures |r| <= limit
      ensures |r| == if skip >= |OwnedIds(userId)| then 0 else Min(limit, |OwnedIds(userId)| - skip)
      ensures forall k :: 0 <= k < |r| ==> |Newer(OwnedIds(userId), r[k].id)| == skip + k
    {
      var ids := PageIds(OwnedIds(userId), nextId, skip, limit);
      var rows := projects;
      seq(|ids|, k requires 0 <= k < |ids| => rows[ids[k]])
    }

    /** With no offset and a large enough limit, every project of the caller is listed. */
    lemma ListUserProjectsComplete(userId: int, limit: nat, id: nat)
      requires Valid()
      requires limit >= nextId
      requires id in projects && projects[id].owner == userId
      ensures projects[id] in ListUserProjects(userId, 0, limit)
    {
      var ids := PageIds(OwnedIds(userId), nextId, 0, limit);
      PageIdsAll(OwnedIds(userId), nextId, limit, id);
      var k :| 0 <= k < |ids| && ids[k] == id;
      assert ListUserProjects(userId, 0, limit)[k] == projects[id];
    }

    /** update_project: WRITE access, then name, description and visibility are overwritten. */
    method Update(projectId: nat, userId: int, input: ProjectInput) returns (r: Result<Project>)
      requires Valid()
      requires input.isPublic.Some?
      modifies this
      ensures Valid() && nextId == old(nextId)
      ensures projectId !in old(projects) ==> r == Failure(NotFound("Project", projectId))
      ensures projectId in old(projects) ==> (r.Success? <==> old(projects)[projectId].owner == userId)
      ensures projectId in old(projects) && r.Failure? ==>
                r.error == (if old(projects)[projectId].isPublic then PermissionDenied("update", "project")
                            else NotFound("project", projectId))
      ensures r.Failure? ==> projects == old(projects)
      ensures r.Success? ==>
                projectId in old(projects)
                && r.value == old(projects)[projectId].(name := input.name, description := input.description,
                                                         isPublic := input.isPublic.value)
                && projects == old(projects)[projectId := r.value]
    {
      if projectId !in projects {
        return Failure(NotFound("Project", projectId));
      }
      var p := projects[projectId];
      var check := CheckProjectAccess(p, userId, WRITE, true);
      if check.Failure? {
        return Failure(check.error);
      }
      p := p.(name := input.name, description := input.description, isPublic := input.isPublic.value);
      projects := projects[projectId := p];
      r := Success(p);
    }

    /** delete_project: WRITE access, then the row is removed. */
    method Delete(projectId: nat, userId: int) returns (r: Result<()>)
      requires Valid()
      modifies this
      ensures Valid() && nextId == old(nextId)
      ensures projectId !in old(projects) ==> r == Failure(NotFound("Project", projectId))
      ensures projectId in old(projects) ==> (r.Success? <==> old(projects)[projectId].owner == userId)
      ensures projectId in old(projects) && r.Failure? ==>
                r.error == (if old(projects)[projectId].isPublic then PermissionDenied("update", "project")
                            else NotFound("project", projectId))
      ensures r.Failure? ==> projects == old(projects)
      ensures r.Success? ==> projects == old(projects) - {projectId}
    {
      if projectId !in projects {
        return Failure(NotFound("Project", projectId));
      }
      var check := CheckProjectAccess(projects[projectId], userId, WRITE, true);
      if check.Failure? {
        return Failure(check.error);
      }
      projects := projects - {projectId};
      r := Success(());
    }
  }
}

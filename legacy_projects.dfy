// The older project service (projects/service.py). Unlike the current one it
// refuses a private project of someone else with PermissionDenied on reading,
// and its update is partial: only the fields given are overwritten.
module LegacyProjects {
  import opened Errors
  import opened Projects

  /** ProjectUpdate: every field optional, None meaning "leave as it is". */
  datatype ProjectUpdate = ProjectUpdate(name: Option<string>, description: Option<string>, isPublic: Option<bool>)

  /** The field assignments of update_project: each given field replaces the old value. */
  function ApplyUpdate(p: Project, u: ProjectUpdate): (r: Project)
    ensures r.id == p.id && r.owner == p.owner
    ensures r.name == (if u.name.Some? then u.name.value else p.name)
    ensures r.description == (if u.description.Some? then u.description else p.description)
    ensures r.isPublic == (if u.isPublic.Some? then u.isPublic.value else p.isPublic)
  {
    var p1 := if u.name.Some? then p.(name := u.name.value) else p;
    var p2 := if u.description.Some? then p1.(description := u.description) else p1;
    if u.isPublic.Some? then p2.(isPublic := u.isPublic.value) else p2
  }

  /** Applying the same partial update twice changes nothing more. */
  lemma ApplyUpdateIdempotent(p: Project, u: ProjectUpdate)
    ensures ApplyUpdate(ApplyUpdate(p, u), u) == ApplyUpdate(p, u)
  {
  }

  /** A partial update can set a description but never clear one. */
  lemma DescriptionNeverCleared(p: Project, u: ProjectUpdate)
    requires p.description.Some?
    ensures ApplyUpdate(p, u).description.Some?
  {
  }

  /** Updates that give disjoint fields can be applied in either order. */
  lemma DisjointUpdatesCommute(p: Project, u: ProjectUpdate, v: ProjectUpdate)
    requires u.name.None? || v.name.None?
    requires u.description.None? || v.description.None?
    requires u.isPublic.None? || v.isPublic.None?
    ensures ApplyUpdate(ApplyUpdate(p, u), v) == ApplyUpdate(ApplyUpdate(p, v), u)
  {
  }

  /**
   * The owner's refusal shared by update and delete: a someone else's public
   * project gives PermissionDenied (with the action "delete" in both), a private
   * one NotFound.
   */
  function CheckOwner(p: Project, userId: int): (r: Result<()>)
    ensures r.Success? <==> p.owner == userId
    ensures r.Failure? && p.isPublic ==> r.error == PermissionDenied("delete", "project")
    ensures r.Failure? && !p.isPublic ==> r.error == NotFound("project", p.id)
  {
    if p.owner != userId then
      if p.isPublic then Failure(PermissionDenied("delete", "project")) else Failure(NotFound("project", p.id))
    else Success(())
  }

  class LegacyProjectStore {
    var projects: map<nat, Project>
    var nextId: nat

    ghost predicate Valid()
      reads this
    {
      nextId >= 1 && forall id :: id in projects ==> projects[id].id == id && 0 < id < nextId
    }

    constructor()
      ensures Valid() && projects == map[]
    {
      projects := map[];
      nextId := 1;
    }

    /** create_project: a missing is_public becomes False. */
    method Create(userId: int, input: ProjectInput) returns (p: Project)
      requires Valid()
      modifies this
      ensures Valid()
      ensures p.id !in old(projects) && p.owner == userId
      ensures p.name == input.name && p.description == input.description
      ensures p.isPublic == (if input.isPublic.Some? then input.isPublic.value else false)
      ensures projects == old(projects)[p.id := p]
    {
      var isPublic := if input.isPublic.Some? then input.isPublic.value else false;
      p := Project(nextId, userId, input.name, input.description, isPublic);
      projects := projects[nextId := p];
      nextId := nextId + 1;
    }

    /** get_project: the owner's project or a public one; a private project of someone else is PermissionDenied. */
    function Get(projectId: nat, userId: int): (r: Result<Project>)
      reads this
      ensures projectId !in projects ==> r == Failure(NotFound("Project", projectId))
      ensures projectId in projects ==>
                (r.Success? <==> projects[projectId].owner == userId || projects[projectId].isPublic)
      ensures r.Success? ==> r.value == projects[projectId]
      ensures projectId in projects && r.Failure? ==> r.error == PermissionDenied("access", "project")
    {
      if projectId !in projects then Failure(NotFound("Project", projectId))
      else
        var p := projects[projectId];
        if p.owner != userId && !p.isPublic then Failure(PermissionDenied("access", "project"))
        else Success(p)
    }

    /**
     * Reading refuses less than writing: whatever update and delete allow, get
     * allows too, and they differ only on someone else's public project, which
     * get returns and the owner check refuses.
     */
    lemma ReadRefusesLessThanWrite(projectId: nat, userId: int)
      requires projectId in projects
      ensures CheckOwner(projects[projectId], userId).Success? ==> Get(projectId, userId).Success?
      ensures Get(projectId, userId).Success? && CheckOwner(projects[projectId], userId).Failure? <==>
                projects[projectId].isPublic && projects[projectId].owner != userId
      ensures projects[projectId].isPublic && projects[projectId].owner != userId ==>
                CheckOwner(projects[projectId], userId) == Failure(PermissionDenied("delete", "project"))
    {
    }

    /** update_project: the owner's project gets the fields given; nothing else changes. */
    method Update(projectId: nat, userId: int, u: ProjectUpdate) returns (r: Result<Project>)
      requires Valid()
      modifies this
      ensures Valid() && nextId == old(nextId)
      ensures projectId !in old(projects) ==> r == Failure(NotFound("Project", projectId))
      ensures projectId in old(projects) ==> (r.Success? <==> old(projects)[projectId].owner == userId)
      ensures projectId in old(projects) && r.Failure? ==> r == Failure(CheckOwner(old(projects)[projectId], userId).error)
      ensures r.Failure? ==> projects == old(projects)
      ensures r.Success? ==>
                projectId in old(projects)
                && r.value == ApplyUpdate(old(projects)[projectId], u)
                && projects == old(projects)[projectId := r.value]
    {
      if projectId !in projects {
        return Failure(NotFound("Project", projectId));
      }
      var p := projects[projectId];
      var check := CheckOwner(p, userId);
      if check.Failure? {
        return Failure(check.error);
      }
      if u.name.Some? {
        p := p.(name := u.name.value);
      }
      if u.description.Some? {
        p := p.(description := u.description);
      }
      if u.isPublic.Some? {
        p := p.(isPublic := u.isPublic.value);
      }
      projects := projects[projectId := p];
      r := Success(p);
    }

    /** delete_project: the owner's project is removed. */
    method Delete(projectId: nat, userId: int) returns (r: Result<()>)
      requires Valid()
      modifies this
      ensures Valid() && nextId == old(nextId)
      ensures projectId !in old(projects) ==> r == Failure(NotFound("Project", projectId))
      ensures projectId in old(projects) ==> (r.Success? <==> old(projects)[projectId].owner == userId)
      ensures projectId in old(projects) && r.Failure? ==> r == Failure(CheckOwner(old(projects)[projectId], userId).error)
      ensures r.Failure? ==> projects == old(projects)
      ensures r.Success? ==> projects == old(projects) - {projectId}
    {
      if projectId !in projects {
        return Failure(NotFound("Project", projectId));
      }
      var check := CheckOwner(projects[projectId], userId);
      if check.Failure? {
        return Failure(check.error);
      }
      projects := projects - {projectId};
      r := Success(());
    }
  }
}

/** The project list: which projects a user sees, creating and deleting them, and which row
    controls are shown. */
module Projects {
  import opened Common
  import opened Strings
  import opened Seqs
  import opened Dates
  import opened Session

  datatype Project = Project(id: string, name: string, createdAt: Instant, createdBy: string, domain: string)

  /** The one organisation whose members share their projects. */
  const GroupDomain: string := "reconenterprises.net"

  const LoginRequired: string := "Please log in to view and create projects."
  const LoadFailed: string := "Failed to load projects. Please try again later."
  const CreateFailed: string := "Failed to create project. Please try again."
  const DeleteFailed: string := "Failed to delete project. Please try again."

  function ProjectId(p: Project): string
  {
    p.id
  }

  /** The equality filter of the project query. */
  datatype Scope = ByDomain(domain: string) | ByCreator(uid: string)

  /** Members of the group domain query by domain; everyone else by creator. */
  function QueryScope(user: User): (s: Scope)
    ensures s.ByDomain? <==> UserDomain(user) == GroupDomain
    ensures s.ByDomain? ==> s.domain == GroupDomain
    ensures s.ByCreator? ==> s.uid == user.uid
  {
    var userDomain := UserDomain(user);
    if userDomain == GroupDomain then ByDomain(userDomain) else ByCreator(user.uid)
  }

  predicate InScope(s: Scope, p: Project)
  {
    match s
    case ByDomain(d) => p.domain == d
    case ByCreator(u) => p.createdBy == u
  }

  function MatchesScope(s: Scope): Project -> bool
  {
    (p: Project) => InScope(s, p)
  }

  /** What `fetchProjects` sets the list to, given the whole `projects` collection. */
  function VisibleProjects(user: User, all: seq<Project>): (r: seq<Project>)
    ensures forall p :: p in r <==> p in all &&
                                    if UserDomain(user) == GroupDomain then p.domain == GroupDomain
                                    else p.createdBy == user.uid
  {
    Filter(all, MatchesScope(QueryScope(user)))
  }

  /** The controls of one row: the Delete button and the "(Group Project)" tag. */
  datatype RowControls = RowControls(deleteButton: bool, groupTag: bool)

  function Controls(p: Project, uid: string): (c: RowControls)
    ensures c.deleteButton <==> p.createdBy == uid
    ensures c.groupTag <==> !c.deleteButton
  {
    RowControls(p.createdBy == uid, p.createdBy != uid)
  }

  /** A project made by `addProject` is found by the creator's next query. */
  lemma CreatedProjectIsVisible(user: User, all: seq<Project>, id: string, name: string, now: Instant)
    ensures var p := Project(id, name, now, user.uid, UserDomain(user));
            p in VisibleProjects(user, all + [p])
  {
    var p := Project(id, name, now, user.uid, UserDomain(user));
    assert p in all + [p];
  }

  /** Outside the group domain every listed project is the user's own: each row has Delete and no tag. */
  lemma PersonalListHasNoGroupProjects(user: User, all: seq<Project>)
    requires UserDomain(user) != GroupDomain
    ensures forall p :: p in VisibleProjects(user, all) ==> Controls(p, user.uid) == RowControls(true, false)
  {
  }

  /** In the group domain a tagged row is a project of a colleague in the same domain, and only
      the user's own projects can be deleted. */
  lemma GroupListControls(user: User, all: seq<Project>, p: Project)
    requires UserDomain(user) == GroupDomain
    requires p in VisibleProjects(user, all)
    ensures Controls(p, user.uid).groupTag ==> p.domain == GroupDomain && p.createdBy != user.uid
    ensures Controls(p, user.uid).deleteButton ==> p.createdBy == user.uid
  {
  }

  class ProjectManager {
    var projects: seq<Project>
    var newProjectName: string
    var error: Option<string>
    var loading: bool

    constructor ()
      ensures projects == [] && newProjectName == "" && error.None? && loading
    {
      projects, newProjectName, error, loading := [], "", None, true;
    }

    /** The effect on `[currentUser]`: fetch for a user, otherwise stop loading and ask to log in. */
    method UserChanged(user: Option<User>, snapshot: Option<seq<Project>>)
      modifies this`projects, this`error, this`loading
      ensures !loading
      ensures user.None? ==> projects == old(projects) && error == Some(LoginRequired)
      ensures user.Some? && snapshot.Some? ==> projects == VisibleProjects(user.value, snapshot.value) && error.None?
      ensures user.Some? && snapshot.None? ==> projects == old(projects) && error == Some(LoadFailed)
    {
      if user.Some? {
        FetchProjects(user.value, snapshot);
      } else {
        loading := false;
        error := Some(LoginRequired);
      }
    }

    /** `fetchProjects`: `snapshot` is the collection the query runs on, or `None` when it is rejected. */
    method FetchProjects(user: User, snapshot: Option<seq<Project>>)
      modifies this`projects, this`error, this`loading
      ensures !loading
      ensures snapshot.Some? ==> projects == VisibleProjects(user, snapshot.value) && error.None?
      ensures snapshot.None? ==> projects == old(projects) && error == Some(LoadFailed)
    {
      loading := true;
      if snapshot.Some? {
        projects := VisibleProjects(user, snapshot.value);
        error := None;
      } else {
        error := Some(LoadFailed);
      }
      loading := false;
    }

    /** `addProject`, up to its un-awaited re-fetch. `now` is `new Date()`, `reply` the answer to `addDoc`. */
    method AddProject(user: Option<User>, now: Instant, reply: WriteResult) returns (stored: Option<Project>)
      modifies this`projects, this`newProjectName, this`error, this`loading
      ensures !(HasText(old(newProjectName)) && user.Some?) ==> unchanged(this) && stored.None?
      ensures HasText(old(newProjectName)) && user.Some? ==> !loading
      ensures HasText(old(newProjectName)) && user.Some? && reply.Written? ==>
                var p := Project(reply.id, old(newProjectName), now, user.value.uid, UserDomain(user.value));
                && stored == Some(p) && projects == old(projects) + [p]
                && newProjectName == "" && error.None?
      ensures HasText(old(newProjectName)) && user.Some? && reply.WriteFailed? ==>
                && stored.None? && projects == old(projects)
                && newProjectName == old(newProjectName) && error == Some(CreateFailed)
      ensures UniqueKeys(old(projects), ProjectId) && (reply.Written? ==> !HasKey(old(projects), ProjectId, reply.id)) ==>
                UniqueKeys(projects, ProjectId)
    {
      stored := None;
      if !(HasText(newProjectName) && user.Some?) {
        return;
      }
      loading := true;
      if reply.Written? {
        var created := Project(reply.id, newProjectName, now, user.value.uid, UserDomain(user.value));
        if UniqueKeys(projects, ProjectId) && !HasKey(projects, ProjectId, reply.id) {
          AppendFreshKeepsUnique(projects, ProjectId, created);
        }
        stored := Some(created);
        projects := projects + [created];
        newProjectName := "";
        error := None;
      } else {
        error := Some(CreateFailed);
      }
      loading := false;
    }

    /** `deleteProject`: `deleted` says whether the backend accepted the delete. */
    method DeleteProject(id: string, deleted: bool)
      modifies this`projects, this`error, this`loading
      ensures !loading
      ensures deleted ==> projects == RemoveByKey(old(projects), ProjectId, id) && error.None?
      ensures !deleted ==> projects == old(projects) && error == Some(DeleteFailed)
      ensures UniqueKeys(old(projects), ProjectId) ==> UniqueKeys(projects, ProjectId)
    {
      loading := true;
      if deleted {
        if UniqueKeys(projects, ProjectId) {
          RemoveKeepsUnique(projects, ProjectId, id);
        }
        projects := RemoveByKey(projects, ProjectId, id);
        error := None;
      } else {
        error := Some(DeleteFailed);
      }
      loading := false;
    }
  }
}

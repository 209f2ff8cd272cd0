/** Project listing and optimistic team assignment. */
module ProjectAssignment {
  import opened Types

  datatype ProjectStatus = Active | Completed | Planned
  datatype Project = Project(id: string, title: string, description: string, status: ProjectStatus)
  datatype Assignment = Assignment(userId: UserId, projectId: string, role: string)

  /** A followed site from `/me/followedSites`; its description may be absent. */
  datatype Workspace = Workspace(id: string, name: string, description: Option<string>)

  /** The outcome of one awaited Graph call. */
  datatype Fetch<T> = Fetched(value: T) | Threw(thrown: Thrown)

  /** The permission grant body: the granted roles and the identities they go to, each naming one user by id. */
  datatype IdentityUser = IdentityUser(id: UserId)
  datatype Identity = Identity(user: IdentityUser)
  datatype PermissionBody = PermissionBody(roles: seq<string>, grantedToIdentities: seq<Identity>)
  datatype PermissionPost = PermissionPost(path: string, body: PermissionBody)

  /** The role the project page's selector always assigns. */
  const MemberRole: string := "Member"
  const AssignError: string := "Error assigning user to project."
  const WorkspacesError: string := "Error fetching workspaces."
  const DataError: string := "Error fetching data."
  const UsersPath: string := "/users"
  const FollowedSitesPath: string := "/me/followedSites"

  /** A workspace's description, or the empty string when it has none. */
  function DescriptionText(d: Option<string>): (text: string)
    ensures d.Some? ==> text == d.value
    ensures d.None? ==> text == ""
  {
    match d
    case Some(t) => t
    case None => ""
  }

  function ToProject(w: Workspace): Project {
    Project(w.id, w.name, DescriptionText(w.description), Active)
  }

  /** One active project per followed site: same order, same id, the site's name as title. */
  function ToProjects(ws: seq<Workspace>): (ps: seq<Project>)
    ensures |ps| == |ws|
    ensures forall k :: 0 <= k < |ws| ==>
      && ps[k].id == ws[k].id
      && ps[k].title == ws[k].name
      && ps[k].description == DescriptionText(ws[k].description)
      && ps[k].status == Active
  {
    if ws == [] then [] else ToProjects(ws[..|ws| - 1]) + [ToProject(ws[|ws| - 1])]
  }

  /** The workspace list can be read back from the project list, apart from which descriptions were absent. */
  lemma ProjectsDetermineWorkspaces(ws: seq<Workspace>, vs: seq<Workspace>)
    requires forall k :: 0 <= k < |ws| ==> ws[k].description.Some?
    requires forall k :: 0 <= k < |vs| ==> vs[k].description.Some?
    requires ToProjects(ws) == ToProjects(vs)
    ensures ws == vs
  {
  }

  /** The current team of a project: its assignments, in the order they were made. */
  function TeamOf(assignments: seq<Assignment>, projectId: string): (team: seq<Assignment>)
    ensures forall a :: a in team <==> a in assignments && a.projectId == projectId
    ensures |team| <= |assignments|
  {
    if assignments == [] then []
    else
      var last := assignments[|assignments| - 1];
      TeamOf(assignments[..|assignments| - 1], projectId) + if last.projectId == projectId then [last] else []
  }

  /** An assignment joins the end of its own project's team and no other team. */
  lemma AssignmentJoinsOneTeam(assignments: seq<Assignment>, a: Assignment, projectId: string)
    ensures TeamOf(assignments + [a], projectId)
         == TeamOf(assignments, projectId) + if a.projectId == projectId then [a] else []
  {
  }

  /** The same user can join the same project twice: the team list is not de-duplicated. */
  lemma RepeatedAssignmentIsKept(assignments: seq<Assignment>, a: Assignment)
    ensures |TeamOf(assignments + [a] + [a], a.projectId)| == |TeamOf(assignments, a.projectId)| + 2
  {
  }

  /** The permission POST for a grant of `role` on `projectId` to `userId`. */
  function PermissionGrant(userId: UserId, projectId: string, role: string): (post: PermissionPost)
    ensures |post.path| == |projectId| + 19 && post.path[..7] == "/sites/"
    ensures post.path[7..7 + |projectId|] == projectId && post.path[7 + |projectId|..] == "/permissions"
    ensures post.body.roles == [role]
    ensures |post.body.grantedToIdentities| == 1 && post.body.grantedToIdentities[0].user.id == userId
  {
    PermissionPost("/sites/" + projectId + "/permissions", PermissionBody([role], [Identity(IdentityUser(userId))]))
  }

  /** The project page's state; `fetched` is `fetchedRef.current`. */
  class ProjectAssignmentView {
    var projects: seq<Project>
    var assignments: seq<Assignment>
    var users: seq<UserDetails>
    var loading: bool
    var error: Option<string>
    var fetched: bool

    constructor ()
      ensures projects == [] && assignments == [] && users == []
      ensures loading && error == None && !fetched
    {
      projects, assignments, users := [], [], [];
      loading, error, fetched := true, None, false;
    }

    /** `fetchData` on mount: after the token, GET the users, then GET the followed sites; `requested` lists the
        GET paths in the order they are sent. `loading` is cleared on every first run. */
    method FetchData(accessToken: Option<string>, usersResponse: Fetch<Option<seq<UserDetails>>>,
                     workspacesResponse: Fetch<seq<Workspace>>)
      returns (requested: seq<string>)
      modifies this
      ensures old(fetched) || !HasToken(accessToken) ==> requested == []
      ensures !old(fetched) && HasToken(accessToken) ==>
        requested == if usersResponse.Threw? then [UsersPath] else [UsersPath, FollowedSitesPath]
      ensures fetched && assignments == old(assignments)
      ensures old(fetched) ==>
        projects == old(projects) && users == old(users) && loading == old(loading) && error == old(error)
      ensures !old(fetched) ==> !loading
      ensures !old(fetched) && !HasToken(accessToken) ==>
        projects == old(projects) && users == old(users) && error == Some(NoTokenMessage)
      ensures !old(fetched) && HasToken(accessToken) && usersResponse.Threw? ==>
        projects == old(projects) && users == old(users) && error == Some(ErrorText(usersResponse.thrown, DataError))
      ensures !old(fetched) && HasToken(accessToken) && usersResponse.Fetched? ==>
        && users == UsersOrEmpty(usersResponse.value)
        && (workspacesResponse.Threw? ==>
              projects == old(projects) && error == Some(ErrorText(workspacesResponse.thrown, WorkspacesError)))
        && (workspacesResponse.Fetched? ==>
              projects == ToProjects(workspacesResponse.value) && error == old(error))
    {
      requested := [];
      if fetched {
        return;
      }
      fetched := true;
      if !HasToken(accessToken) {
        error := Some(NoTokenMessage);
        loading := false;
        return;
      }
      requested := requested + [UsersPath];
      match usersResponse {
        case Threw(thrown) =>
          error := Some(ErrorText(thrown, DataError));
        case Fetched(value) =>
          users := UsersOrEmpty(value);
          requested := requested + [FollowedSitesPath];
          match workspacesResponse {
            case Threw(thrown) =>
              error := Some(ErrorText(thrown, WorkspacesError));
            case Fetched(workspaces) =>
              projects := ToProjects(workspaces);
          }
      }
      loading := false;
    }

    /** `handleAssignment`: the assignment is appended first and stays whatever happens next;
        without a token nothing is posted; a failed POST only sets the error. */
    method HandleAssignment(userId: UserId, projectId: string, role: string,
                            accessToken: Option<string>, postResponse: Fetch<()>)
      returns (post: Option<PermissionPost>)
      modifies this
      ensures assignments == old(assignments) + [Assignment(userId, projectId, role)]
      ensures post.None? <==> !HasToken(accessToken)
      ensures post.Some? ==> post.value == PermissionGrant(userId, projectId, role)
      ensures error == (if post.Some? && postResponse.Threw? then Some(ErrorText(postResponse.thrown, AssignError))
                        else old(error))
      ensures projects == old(projects) && users == old(users) && loading == old(loading) && fetched == old(fetched)
    {
      assignments := assignments + [Assignment(userId, projectId, role)];
      if !HasToken(accessToken) {
        return None;
      }
      post := Some(PermissionGrant(userId, projectId, role));
      if postResponse.Threw? {
        error := Some(ErrorText(postResponse.thrown, AssignError));
      }
    }

    /** The selector on a project card: assign the chosen user as a member. */
    method SelectMember(userId: UserId, project: Project, accessToken: Option<string>, postResponse: Fetch<()>)
      returns (post: Option<PermissionPost>)
      modifies this
      ensures assignments == old(assignments) + [Assignment(userId, project.id, MemberRole)]
      ensures post.Some? ==> post.value.body.roles == [MemberRole]
    {
      post := HandleAssignment(userId, project.id, MemberRole, accessToken, postResponse);
    }
  }

  /** The user list of a response, or no users when the response has none. */
  function UsersOrEmpty(value: Option<seq<UserDetails>>): (users: seq<UserDetails>)
    ensures value.Some? ==> users == value.value
    ensures value.None? ==> users == []
  {
    match value
    case Some(us) => us
    case None => []
  }
}

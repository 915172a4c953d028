/**
 The group invitation script (`invite_users_to_group`): look the group up,
 then for every uid in turn skip it when it is already a member and invite it
 otherwise, carrying on after a refused invitation.

 The GitLab server is an oracle: the groups that exist, the members of the
 group, and the uids whose invitation the server refuses. The run is the list
 of what happened to each uid, or the abort when the group does not exist.
 */
module Invite {
  import opened Text

  /** GitLab's Developer access level (`const.AccessLevel.DEVELOPER`), the
      default of the script. */
  const Developer := 30

  /** The server state the script sees, fixed for the whole run. A uid in
      `members` makes `members.get` succeed; a uid in `refused` makes
      `invitations.create` raise `GitlabCreateError`. */
  datatype Server = Server(groups: set<string>, members: set<int>, refused: set<int>)

  /** The data of one `invitations.create` call. */
  datatype InviteRequest = InviteRequest(userId: string, accessLevel: int)

  /** What happened to one uid. */
  datatype Action =
    | AlreadyMember(uid: int)
    | Invited(uid: int, request: InviteRequest)
    | InviteFailed(uid: int, request: InviteRequest)

  /** A run either stops at the group lookup (`sys.exit(1)`) or reports one
      action per uid. */
  datatype Run = GroupNotFound(group: string) | Completed(actions: seq<Action>)

  /** The invitation request for a uid: the uid as a decimal string and the
      requested level. */
  function RequestFor(uid: int, level: int): (req: InviteRequest)
    ensures req.accessLevel == level
    ensures uid >= 0 ==> DigitsValue(req.userId) == uid && forall i :: 0 <= i < |req.userId| ==> IsDigit(req.userId[i])
    ensures |req.userId| >= 1 && (req.userId[0] == '-' <==> uid < 0)
  {
    InviteRequest(IntToString(uid), level)
  }

  /** The loop body for one uid: a member is skipped; anyone else gets one
      invitation, which either goes through or is refused. */
  function Step(server: Server, uid: int, level: int): (a: Action)
    ensures a.uid == uid
    ensures a.AlreadyMember? <==> uid in server.members
    ensures a.InviteFailed? <==> uid !in server.members && uid in server.refused
    ensures !a.AlreadyMember? ==> a.request == RequestFor(uid, level)
  {
    if uid in server.members then AlreadyMember(uid)
    else if uid in server.refused then InviteFailed(uid, RequestFor(uid, level))
    else Invited(uid, RequestFor(uid, level))
  }

  /** The actions of the loop over `uids`, in input order. */
  function Trace(server: Server, uids: seq<int>, level: int): (actions: seq<Action>)
    ensures |actions| == |uids|
    ensures forall i :: 0 <= i < |uids| ==> actions[i] == Step(server, uids[i], level)
    decreases |uids|
  {
    if |uids| == 0 then []
    else [Step(server, uids[0], level)] + Trace(server, uids[1..], level)
  }

  /** `invite_users_to_group`: the group lookup, then the loop. */
  function InviteUsers(server: Server, group: string, uids: seq<int>, level: int := Developer): (run: Run)
    ensures run.GroupNotFound? <==> group !in server.groups
    ensures run.GroupNotFound? ==> run.group == group
    ensures run.Completed? ==> |run.actions| == |uids|
  {
    if group !in server.groups then GroupNotFound(group)
    else Completed(Trace(server, uids, level))
  }

  /** The script's loop, one uid per iteration. */
  method InviteUsersToGroup(server: Server, group: string, uids: seq<int>, level: int := Developer)
    returns (run: Run)
    ensures run == InviteUsers(server, group, uids, level)
  {
    if group !in server.groups {
      return GroupNotFound(group);
    }
    var actions: seq<Action> := [];
    var i := 0;
    while i < |uids|
      invariant 0 <= i <= |uids|
      invariant |actions| == i
      invariant forall j :: 0 <= j < i ==> actions[j] == Step(server, uids[j], level)
    {
      actions := actions + [Step(server, uids[i], level)];
      i := i + 1;
    }
    return Completed(actions);
  }

  // Properties of the run.

  /** The uids the script tried to invite, successfully or not, in order. */
  function Attempted(actions: seq<Action>): seq<int>
    decreases |actions|
  {
    if |actions| == 0 then []
    else if actions[0].AlreadyMember? then Attempted(actions[1..])
    else [actions[0].uid] + Attempted(actions[1..])
  }

  /** The uids of the input that are not members of the group, in order,
      with repetitions kept. */
  function NonMembers(server: Server, uids: seq<int>): seq<int>
    decreases |uids|
  {
    if |uids| == 0 then []
    else if uids[0] in server.members then NonMembers(server, uids[1..])
    else [uids[0]] + NonMembers(server, uids[1..])
  }

  /** The invitation attempts are exactly the non-member uids of the input,
      in input order; a uid listed twice is attempted twice. */
  lemma {:induction false} AttemptsAreNonMembers(server: Server, uids: seq<int>, level: int)
    ensures Attempted(Trace(server, uids, level)) == NonMembers(server, uids)
    decreases |uids|
  {
    if |uids| > 0 {
      var t := Trace(server, uids, level);
      assert t[1..] == Trace(server, uids[1..], level);
      AttemptsAreNonMembers(server, uids[1..], level);
    }
  }

  /** The loop handles every uid on its own: the run over two lists one after
      the other is the run over the first followed by the run over the
      second. In particular a refused invitation changes nothing for the uids
      after it. */
  lemma TraceAppend(server: Server, a: seq<int>, b: seq<int>, level: int)
    ensures Trace(server, a + b, level) == Trace(server, a, level) + Trace(server, b, level)
  {
    var whole, parts := Trace(server, a + b, level), Trace(server, a, level) + Trace(server, b, level);
    forall i | 0 <= i < |a + b|
      ensures whole[i] == parts[i]
    {
      if i < |a| {
        assert (a + b)[i] == a[i];
      } else {
        assert (a + b)[i] == b[i - |a|];
      }
    }
  }

  /** A refused invitation is reported, and every later uid is still
      handled exactly as if the refusal had not happened. */
  lemma FailureDoesNotStop(server: Server, uids: seq<int>, level: int, i: int)
    requires 0 <= i < |uids|
    requires Trace(server, uids, level)[i].InviteFailed?
    ensures Trace(server, uids, level)[i] == InviteFailed(uids[i], RequestFor(uids[i], level))
    ensures Trace(server, uids, level)[i + 1..] == Trace(server, uids[i + 1..], level)
  {
    TraceAppend(server, uids[..i + 1], uids[i + 1..], level);
    assert uids[..i + 1] + uids[i + 1..] == uids;
  }

  /** Membership is looked up again for each occurrence: under a member set
      that does not change during the run, a non-member listed twice gets two
      identical invitation requests. */
  lemma DuplicateInvitedTwice(server: Server, uids: seq<int>, level: int, i: int, j: int)
    requires 0 <= i < j < |uids| && uids[i] == uids[j] && uids[i] !in server.members
    ensures var t := Trace(server, uids, level);
            && !t[i].AlreadyMember? && !t[j].AlreadyMember?
            && t[i].request == t[j].request == RequestFor(uids[i], level)
  {
  }

  /** Different uids are invited under different `user_id` strings. */
  lemma RequestsIdentifyUser(a: int, b: int, level: int)
    requires RequestFor(a, level).userId == RequestFor(b, level).userId
    ensures a == b
  {
    IntToStringInjective(a, b);
  }

  /** Unless a level is given, every invitation asks for Developer access. */
  lemma DefaultLevelIsDeveloper(server: Server, group: string, uids: seq<int>)
    requires group in server.groups
    ensures var run := InviteUsers(server, group, uids);
            forall a :: a in run.actions && !a.AlreadyMember? ==> a.request.accessLevel == Developer
  {
    var run := InviteUsers(server, group, uids);
    forall a | a in run.actions && !a.AlreadyMember?
      ensures a.request.accessLevel == Developer
    {
      var k :| 0 <= k < |run.actions| && run.actions[k] == a;
    }
  }
}

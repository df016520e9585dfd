/**
 * The `unixgroups` binding: `initgroups(user, alsoSetGid)` looks the user
 * up, optionally switches the process's group to the user's primary group,
 * and then loads the user's supplementary groups; `getgroups()` lists the
 * supplementary groups.
 *
 * The process's credentials and the system calls it has made are the state
 * of a `Process`; what each call reports is an input.
 */
module UnixGroups {
  import opened Common
  import Posix

  /** A JavaScript argument: its text as a UTF-8 string, and whether it is the value `true`. */
  datatype Arg = Arg(text: string, isTrue: bool)

  /** The system calls `initgroups` can make, with their arguments. */
  datatype Syscall =
    | GetPwNamRCall(name: string, bufsize: int)
    | SetGid(gid: nat)
    | InitGroupsCall(user: string, gid: nat)

  /**
   * What the system reports: `sysconf(_SC_GETPW_R_SIZE_MAX)`, the user
   * lookup, the errno of a failing `setgid` or `initgroups` (None when the
   * call succeeds), and the groups the group database lists the user in.
   */
  datatype OsReplies = OsReplies(
    sysconfValue: int, lookup: Posix.Lookup,
    setgidErrno: Option<int>, initgroupsErrno: Option<int>,
    memberOf: seq<nat>)

  /** What the binding returns or throws. */
  datatype Outcome =
    | Undefined
    | ThrowError(message: string)
    | ThrowErrno(errno: int, syscall: string)

  /** The process's group and supplementary group list. */
  datatype Creds = Creds(gid: nat, groups: seq<nat>)

  /** One call of the binding: the system calls made, the outcome, and the credentials after. */
  datatype Run = Run(calls: seq<Syscall>, outcome: Outcome, after: Creds)

  /** The list without any copy of `x`. */
  function Without(s: seq<nat>, x: nat): (r: seq<nat>)
    ensures forall y :: y in r <==> y in s && y != x
  {
    if s == [] then []
    else if s[0] == x then Without(s[1..], x)
    else [s[0]] + Without(s[1..], x)
  }

  /** The supplementary list `initgroups(user, gid)` installs: `gid` first, then the user's other groups. */
  function InitGroupsList(gid: nat, memberOf: seq<nat>): (r: seq<nat>)
    ensures r != [] && r[0] == gid && gid !in r[1..]
    ensures forall y :: y in r <==> y == gid || y in memberOf
  {
    [gid] + Without(memberOf, gid)
  }

  /** The user's primary group, when the lookup found the user. */
  function UserGid(os: OsReplies): Option<nat>
  {
    if Posix.LookupFailed(os.lookup) then None else Some(os.lookup.found.value.gid)
  }

  /** Whether a `setgid` call appears among the calls. */
  predicate SetGidCalled(calls: seq<Syscall>)
  {
    exists i :: 0 <= i < |calls| && calls[i].SetGid?
  }

  /** The errno error a failing call is reported with. */
  function FailureOf(call: Syscall, os: OsReplies): Outcome
  {
    match call
    case GetPwNamRCall(_, _) => ThrowErrno(os.lookup.errno, "getpwnam_r")
    case SetGid(_) => ThrowErrno(if os.setgidErrno.Some? then os.setgidErrno.value else 0, "setgid")
    case InitGroupsCall(_, _) => ThrowErrno(if os.initgroupsErrno.Some? then os.initgroupsErrno.value else 0, "initgroups")
  }

  /**
   * `InitGroups(args)` from credentials `before`: no argument is refused
   * before any call; a missing user or a failed lookup ends after the
   * lookup; `setgid` runs only when the second argument is `true` and
   * always before `initgroups`; a failing call is the last one made.
   */
  function InitGroupsRun(args: seq<Arg>, os: OsReplies, before: Creds): (r: Run)
    ensures |args| < 1 <==> r.calls == []
    ensures |args| < 1 ==> r.outcome == ThrowError("initgroups requires 1 argument")
    ensures |args| >= 1 ==> r.calls[0] == GetPwNamRCall(args[0].text, os.sysconfValue)
    ensures r.outcome == ThrowError("initgroups user does not exist")
      <==> |args| >= 1 && Posix.LookupFailed(os.lookup) && os.lookup.errno == 0
    ensures SetGidCalled(r.calls) <==> |args| > 1 && args[1].isTrue && UserGid(os).Some?
    ensures forall i, j :: 0 <= i < |r.calls| && 0 <= j < |r.calls| && r.calls[i].SetGid? && r.calls[j].InitGroupsCall? ==> i < j
    ensures forall i :: 0 <= i < |r.calls| && r.calls[i].SetGid? ==> UserGid(os) == Some(r.calls[i].gid)
    ensures forall i :: 0 <= i < |r.calls| && r.calls[i].InitGroupsCall? ==>
      UserGid(os) == Some(r.calls[i].gid) && r.calls[i].user == args[0].text
    ensures r.outcome.ThrowErrno? ==> r.calls != [] && r.outcome == FailureOf(r.calls[|r.calls| - 1], os)
    ensures r.outcome.Undefined? <==>
      && |args| >= 1 && UserGid(os).Some?
      && (!(|args| > 1 && args[1].isTrue) || os.setgidErrno.None?)
      && os.initgroupsErrno.None?
    ensures r.outcome.Undefined? ==>
      && r.calls[|r.calls| - 1].InitGroupsCall?
      && r.after.groups == InitGroupsList(UserGid(os).value, os.memberOf)
      && r.after.gid == (if args[1..] != [] && args[1].isTrue then UserGid(os).value else before.gid)
    ensures !r.outcome.Undefined? ==> r.after.groups == before.groups
    ensures r.after.gid != before.gid ==> SetGidCalled(r.calls) && os.setgidErrno.None?
  {
    if |args| < 1 then Run([], ThrowError("initgroups requires 1 argument"), before)
    else
      var lookup := [GetPwNamRCall(args[0].text, os.sysconfValue)];
      if Posix.LookupFailed(os.lookup) then
        if os.lookup.errno == 0 then Run(lookup, ThrowError("initgroups user does not exist"), before)
        else Run(lookup, ThrowErrno(os.lookup.errno, "getpwnam_r"), before)
      else
        var gid := os.lookup.found.value.gid;
        var wantSetGid := |args| > 1 && args[1].isTrue;
        var setgid := if wantSetGid then [SetGid(gid)] else [];
        if wantSetGid && os.setgidErrno.Some? then
          assert (lookup + setgid)[1].SetGid?;
          Run(lookup + setgid, ThrowErrno(os.setgidErrno.value, "setgid"), before)
        else
          var creds := if wantSetGid then Creds(gid, before.groups) else before;
          var calls := lookup + setgid + [InitGroupsCall(args[0].text, gid)];
          assert wantSetGid ==> calls[1].SetGid?;
          if os.initgroupsErrno.Some? then
            Run(calls, ThrowErrno(os.initgroupsErrno.value, "initgroups"), creds)
          else
            Run(calls, Undefined, Creds(creds.gid, InitGroupsList(gid, os.memberOf)))
  }

  /** A process: its group, its supplementary groups, and the system calls it has made. */
  class Process {
    var gid: nat
    var groups: seq<nat>
    var calls: seq<Syscall>

    constructor(gid: nat, groups: seq<nat>)
      ensures this.gid == gid && this.groups == groups && calls == []
    {
      this.gid := gid;
      this.groups := groups;
      calls := [];
    }

    /** `InitGroups`: each step in turn, returning at the first failure. */
    method InitGroups(args: seq<Arg>, os: OsReplies) returns (r: Outcome)
      modifies this
      ensures var run := InitGroupsRun(args, os, Creds(old(gid), old(groups)));
        && calls == old(calls) + run.calls
        && r == run.outcome
        && gid == run.after.gid
        && groups == run.after.groups
    {
      if |args| < 1 {
        return ThrowError("initgroups requires 1 argument");
      }
      calls := calls + [GetPwNamRCall(args[0].text, os.sysconfValue)];
      if Posix.LookupFailed(os.lookup) {
        if os.lookup.errno == 0 {
          return ThrowError("initgroups user does not exist");
        }
        return ThrowErrno(os.lookup.errno, "getpwnam_r");
      }
      var userGid := os.lookup.found.value.gid;
      if |args| > 1 && args[1].isTrue {
        calls := calls + [SetGid(userGid)];
        if os.setgidErrno.Some? {
          return ThrowErrno(os.setgidErrno.value, "setgid");
        }
        gid := userGid;
      }
      calls := calls + [InitGroupsCall(args[0].text, userGid)];
      if os.initgroupsErrno.Some? {
        return ThrowErrno(os.initgroupsErrno.value, "initgroups");
      }
      groups := InitGroupsList(userGid, os.memberOf);
      return Undefined;
    }

    /**
     * `GetGroups`: `getgroups` into a buffer of `ngroupsMax` entries, copied
     * into an array. A list longer than the buffer makes `getgroups` fail,
     * and the binding's assertion aborts: None.
     */
    method GetGroups(ngroupsMax: nat) returns (r: Option<seq<nat>>)
      ensures r.Some? <==> |groups| <= ngroupsMax
      ensures r.Some? ==> r.value == groups
    {
      var groupList := new nat[ngroupsMax](_ => 0);
      if |groups| > ngroupsMax {
        return None;
      }
      var ngroups := |groups|;
      forall i | 0 <= i < ngroups {
        groupList[i] := groups[i];
      }
      var groupsArray: seq<nat> := [];
      for i := 0 to ngroups
        invariant groupsArray == groupList[..i]
      {
        groupsArray := groupsArray + [groupList[i]];
      }
      assert groupList[..ngroups] == groups;
      return Some(groupsArray);
    }
  }
}

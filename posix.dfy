/**
 * The `getpwnam` binding: one lookup in the user database with
 * `getpwnam_r`, classified as a missing argument, a user that does not
 * exist (null), a failed lookup (an errno error) or the user's record as a
 * JavaScript object of seven fields.
 *
 * What `sysconf` and `getpwnam_r` report is an input, and the call the
 * binding makes is part of its result, so that "no call" can be stated.
 */
module Posix {
  import opened Common

  /** `struct passwd`, the fields the binding reads. */
  datatype Passwd = Passwd(
    name: string, passwd: string, uid: nat, gid: nat,
    gecos: string, dir: string, shell: string)

  /**
   * What `getpwnam_r` does: its return value, the record it fills (or
   * null), and what `errno` holds afterwards.
   */
  datatype Lookup = Lookup(err: int, found: Option<Passwd>, errno: int)

  /** The lookup did not produce a record: a nonzero return or a null result pointer. */
  predicate LookupFailed(l: Lookup)
  {
    l.err != 0 || l.found.None?
  }

  /** The call `getpwnam_r(name, …, buf, bufsize, …)`. */
  datatype PwCall = GetPwNamR(name: string, bufsize: int)

  /** A JavaScript value in the record object. */
  datatype JsValue = JsString(s: string) | JsNumber(n: nat)

  /** What the binding returns or throws. */
  datatype PwOutcome =
    | ThrowError(message: string)
    | ThrowErrno(errno: int, syscall: string)
    | Null
    | Record(fields: map<string, JsValue>)

  const DefaultPwBufferSize := 16384

  /** The buffer size: `sysconf(_SC_GETPW_R_SIZE_MAX)`, or 16384 when it is indeterminate. */
  function PwBufferSize(sysconfValue: int): (n: int)
    ensures sysconfValue == -1 ==> n == DefaultPwBufferSize
    ensures sysconfValue != -1 ==> n == sysconfValue
  {
    if sysconfValue == -1 then DefaultPwBufferSize else sysconfValue
  }

  /** The seven property names of the record object. */
  const RecordKeys: set<string> := {"name", "passwd", "uid", "gid", "gecos", "home", "shell"}

  /** The record object; `pw_dir` is published as "home". */
  function UserObject(p: Passwd): (m: map<string, JsValue>)
    ensures m.Keys == RecordKeys
  {
    map["name" := JsString(p.name), "passwd" := JsString(p.passwd),
        "uid" := JsNumber(p.uid), "gid" := JsNumber(p.gid),
        "gecos" := JsString(p.gecos), "home" := JsString(p.dir),
        "shell" := JsString(p.shell)]
  }

  /** Reading a record object back: each field from its property, if it has the right kind. */
  function ReadUserObject(m: map<string, JsValue>): Option<Passwd>
  {
    if RecordKeys <= m.Keys
      && m["name"].JsString? && m["passwd"].JsString? && m["uid"].JsNumber? && m["gid"].JsNumber?
      && m["gecos"].JsString? && m["home"].JsString? && m["shell"].JsString?
    then Some(Passwd(m["name"].s, m["passwd"].s, m["uid"].n, m["gid"].n,
                     m["gecos"].s, m["home"].s, m["shell"].s))
    else None
  }

  /** The object carries every field of the record: reading it back gives the record. */
  lemma UserObjectRoundTrip(p: Passwd)
    ensures ReadUserObject(UserObject(p)) == Some(p)
  {
    var m := UserObject(p);
    assert "name" in m && "passwd" in m && "uid" in m && "gid" in m;
    assert "gecos" in m && "home" in m && "shell" in m;
  }

  /** Different users give different objects. */
  lemma UserObjectInjective(p: Passwd, q: Passwd)
    requires UserObject(p) == UserObject(q)
    ensures p == q
  {
    UserObjectRoundTrip(p);
    UserObjectRoundTrip(q);
  }

  /**
   * `GetPwNam(args)`: the calls made and the outcome. `args` are the
   * arguments as strings; `sysconfValue` and `lookup` are what the system
   * reports.
   */
  function GetPwNam(args: seq<string>, sysconfValue: int, lookup: Lookup): (r: (seq<PwCall>, PwOutcome))
    ensures |args| < 1 <==> r.0 == []
    ensures |args| < 1 ==> r.1 == ThrowError("getpwnam requires 1 argument")
    ensures |args| >= 1 ==> r.0 == [GetPwNamR(args[0], PwBufferSize(sysconfValue))]
    ensures r.1.Null? <==> |args| >= 1 && LookupFailed(lookup) && lookup.errno == 0
    ensures r.1.ThrowErrno? <==> |args| >= 1 && LookupFailed(lookup) && lookup.errno != 0
    ensures r.1.ThrowErrno? ==> r.1 == ThrowErrno(lookup.errno, "getpwnam_r")
    ensures r.1.Record? <==> |args| >= 1 && !LookupFailed(lookup)
    ensures r.1.Record? ==> ReadUserObject(r.1.fields) == lookup.found
  {
    if |args| < 1 then ([], ThrowError("getpwnam requires 1 argument"))
    else
      var calls := [GetPwNamR(args[0], PwBufferSize(sysconfValue))];
      if LookupFailed(lookup) then
        if lookup.errno == 0 then (calls, Null)
        else (calls, ThrowErrno(lookup.errno, "getpwnam_r"))
      else
        UserObjectRoundTrip(lookup.found.value);
        (calls, Record(UserObject(lookup.found.value)))
  }
}

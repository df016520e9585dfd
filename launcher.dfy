/**
 * The native launcher: it daemonizes when asked to, finds the installation's
 * base directory from the link `/proc/<pid>/exe`, and replaces itself with
 * the bundled node running `lib/main.js`, passing its own arguments on.
 *
 * The operating system is an input: the process id, what `lstat` reports for
 * the link and what `readlink` would read from it. `daemon` is counted,
 * and `execv` is the launcher's result: the file and the argument vector.
 */
module Launcher {
  import opened Common

  /** MAXPATHLEN on Linux. */
  const MaxPathLen: nat := 4096

  const DaemonizeFlag := "--daemonize"

  // ---------------------------------------------------------------------
  // The daemonize scan
  // ---------------------------------------------------------------------

  /** "--daemonize" is one of the arguments after the program name. */
  predicate DaemonizeRequested(argv: seq<string>)
  {
    exists i :: 1 <= i < |argv| && argv[i] == DaemonizeFlag
  }

  /** The scan over `argv[1..]`: `daemon` is called once if the flag is there, and never otherwise. */
  method ScanDaemonize(argv: array<string>) returns (daemonCalls: nat)
    ensures daemonCalls <= 1
    ensures daemonCalls == 1 <==> DaemonizeRequested(argv[..])
  {
    daemonCalls := 0;
    var i := 1;
    while i < argv.Length
      invariant 1 <= i
      invariant forall k :: 1 <= k < i && k < argv.Length ==> argv[k] != DaemonizeFlag
    {
      if argv[i] == DaemonizeFlag {
        daemonCalls := daemonCalls + 1;
        break;
      }
      i := i + 1;
    }
  }

  // ---------------------------------------------------------------------
  // Paths
  // ---------------------------------------------------------------------

  /** The path with every trailing '/' removed. */
  function StripTrailingSlashes(s: string): (r: string)
    ensures r <= s
    ensures r == [] || r[|r| - 1] != '/'
    ensures forall k :: |r| <= k < |s| ==> s[k] == '/'
  {
    if s != [] && s[|s| - 1] == '/' then StripTrailingSlashes(s[..|s| - 1]) else s
  }

  /**
   * POSIX `dirname`: the path up to its last component, without the slashes
   * that separate them; "." for a bare name and "/" for a top-level entry.
   */
  function Dirname(path: string): (d: string)
    ensures d != []
    ensures d == "." || d == "/" || (d < path && path[|d|] == '/' && d[|d| - 1] != '/')
  {
    if path == [] then "."
    else
      var t := StripTrailingSlashes(path);
      if t == [] then "/"
      else
        var i := LastIndexOf(t, '/');
        if i < 0 then "."
        else
          var p := StripTrailingSlashes(t[..i]);
          if p == [] then "/"
          else
            assert path[|p|] == '/' by {
              if |p| < i {
                assert t[..i][|p|] == '/';
              }
            }
            p
  }

  /** The parent of `parent/name` is `parent`. */
  lemma DirnameOfChild(parent: string, name: string)
    requires parent != [] && parent[|parent| - 1] != '/'
    requires name != [] && '/' !in name
    ensures Dirname(parent + "/" + name) == parent
  {
    var path := parent + "/" + name;
    assert path[|path| - 1] == name[|name| - 1];
    assert StripTrailingSlashes(path) == path;
    var i := LastIndexOf(path, '/');
    assert path[|parent|] == '/';
    forall k | i < k < |path|
      ensures path[k] != '/'
    {
      assert path[k] == path[i + 1..][k - i - 1];
    }
    forall k | |parent| < k < |path|
      ensures path[k] != '/'
    {
      assert path[k] == name[k - |parent| - 1];
    }
    assert i == |parent|;
    assert path[..i] == parent;
  }

  /** A bare name lives in ".". */
  lemma DirnameOfBareName(name: string)
    requires name != [] && '/' !in name
    ensures Dirname(name) == "."
  {
    assert name[|name| - 1] in name;
    assert StripTrailingSlashes(name) == name;
  }

  /** The installation directory: two levels above the executable. */
  function BaseDir(execPath: string): string
  {
    Dirname(Dirname(execPath))
  }

  /** An executable at `base/dir/exe` belongs to the installation at `base`. */
  lemma InstalledBase(base: string, dir: string, exe: string)
    requires base != [] && base[|base| - 1] != '/'
    requires dir != [] && '/' !in dir
    requires exe != [] && '/' !in exe
    ensures BaseDir(base + "/" + dir + "/" + exe) == base
  {
    var parent := base + "/" + dir;
    assert parent[|parent| - 1] == dir[|dir| - 1];
    DirnameOfChild(parent, exe);
    DirnameOfChild(base, dir);
  }

  /** The bundled node binary. */
  function NodePath(base: string): string
  {
    base + "/ext/node/bin/shiny-server"
  }

  /** The server's entry script. */
  function MainPath(base: string): string
  {
    base + "/lib/main.js"
  }

  // ---------------------------------------------------------------------
  // findBaseDir
  // ---------------------------------------------------------------------

  /** The link `/proc/<pid>/exe` that `snprintf` writes. */
  function ProcExePath(pid: nat): string
  {
    "/proc/" + NatToDecimal(pid) + "/exe"
  }

  /** What `lstat` reports for the link: a failure, or whether it is a link and its size. */
  datatype LinkStat =
    | LStatFails(errno: int)
    | Stat(isLink: bool, size: int)

  /** What `readlink` finds: a failure, or the link's target. */
  datatype LinkRead =
    | ReadLinkFails(errno: int)
    | LinkTarget(target: string)

  /**
   * The buffer handed to `readlink`: the link's size, or MAXPATHLEN when
   * `lstat` reports none, and a byte for the terminator.
   */
  function ReadLinkBufferSize(size: int): (n: nat)
    requires size <= MaxPathLen
    ensures size < n <= MaxPathLen + 1
    ensures size <= 0 ==> n == MaxPathLen + 1
  {
    (if size > 0 then size else MaxPathLen) + 1
  }

  /** `readlink` into a buffer of `bufSize` bytes: the target, cut to fit, with no terminator. */
  function ReadLinkCount(target: string, bufSize: nat): (cb: nat)
    ensures cb <= bufSize && cb <= |target|
    ensures cb == |target| || cb == bufSize
  {
    if |target| <= bufSize then |target| else bufSize
  }

  /** Where the terminator goes as written: `readlink` may fill the whole buffer. */
  function TerminatorIndexAsWritten(size: int, target: string): nat
    requires size <= MaxPathLen
  {
    ReadLinkCount(target, ReadLinkBufferSize(size))
  }

  /** Where the terminator goes when `readlink` is kept off the buffer's last byte. */
  function TerminatorIndex(size: int, target: string): (cb: nat)
    requires size <= MaxPathLen
    ensures cb < MaxPathLen + 1
  {
    ReadLinkCount(target, ReadLinkBufferSize(size) - 1)
  }

  /** A target longer than MAXPATHLEN puts the terminator one past the end of `execPath`, as written. */
  lemma TerminatorOverrunAsWritten(target: string)
    requires |target| > MaxPathLen
    ensures TerminatorIndexAsWritten(0, target) == MaxPathLen + 1
    ensures TerminatorIndexAsWritten(MaxPathLen, target) == MaxPathLen + 1
  {
  }

  /** When the target fits the buffer as `lstat` sized it, both read all of it. */
  lemma WholeLinkRead(size: int, target: string)
    requires size <= MaxPathLen
    requires |target| == size || (size <= 0 && |target| <= MaxPathLen)
    ensures TerminatorIndex(size, target) == |target|
    ensures TerminatorIndexAsWritten(size, target) == |target|
  {
  }

  /** The path `findBaseDir` reads from the link, when every step succeeds. */
  function LinkPath(st: LinkStat, rl: LinkRead): (r: string)
    requires st.Stat? && st.size <= MaxPathLen && rl.LinkTarget?
    ensures |r| <= MaxPathLen && |r| <= |rl.target| && r == rl.target[..|r|]
    ensures |rl.target| == st.size ==> r == rl.target
  {
    rl.target[..TerminatorIndex(st.size, rl.target)]
  }

  /** The conditions under which `findBaseDir` gives up with 1. */
  predicate LinkFails(st: LinkStat, rl: LinkRead)
  {
    st.LStatFails? || !st.isLink || st.size > MaxPathLen || rl.ReadLinkFails?
  }

  /**
   * `findBaseDir`: 2 when the `/proc` path does not fit, 1 when `lstat` fails,
   * the path is not a link, the link is longer than MAXPATHLEN or `readlink`
   * fails, and otherwise 0 with the directory two levels above the target.
   */
  method FindBaseDir(pid: nat, st: LinkStat, rl: LinkRead) returns (code: int, base: string)
    ensures code == 0 || code == 1 || code == 2
    ensures code == 2 <==> |ProcExePath(pid)| > MaxPathLen
    ensures code == 1 <==> |ProcExePath(pid)| <= MaxPathLen && LinkFails(st, rl)
    ensures code == 0 ==> !LinkFails(st, rl) && base == BaseDir(LinkPath(st, rl))
  {
    base := "";
    var procPath := ProcExePath(pid);
    if |procPath| > MaxPathLen {
      return 2, base;
    }
    if st.LStatFails? {
      return 1, base;
    }
    if !st.isLink {
      return 1, base;
    }
    if st.size > MaxPathLen {
      return 1, base;
    }
    var execBuf := new char[ReadLinkBufferSize(st.size)](_ => '\0');
    if rl.ReadLinkFails? {
      return 1, base;
    }
    // `readlink` is given one byte less than the buffer, so the terminator always fits
    var cb := ReadLinkCount(rl.target, execBuf.Length - 1);
    forall i | 0 <= i < cb {
      execBuf[i] := rl.target[i];
    }
    var execPath := new char[MaxPathLen + 1](_ => '\0');
    forall i | 0 <= i < cb {
      execPath[i] := execBuf[i];
    }
    execPath[cb] := '\0';
    assert execPath[..cb] == rl.target[..cb];
    base := BaseDir(execPath[..cb]);
    code := 0;
  }

  // ---------------------------------------------------------------------
  // The new argument vector
  // ---------------------------------------------------------------------

  /** Each argument as a non-null pointer. */
  function Forwarded(args: seq<string>): (r: seq<Option<string>>)
    ensures |r| == |args|
    ensures forall i :: 0 <= i < |r| ==> r[i] == Some(args[i])
  {
    seq(|args|, i requires 0 <= i < |args| => Some(args[i]))
  }

  /**
   * `newargs`, `argc + 2` entries: node, the main script, `argv[1..]` and a
   * null. With no arguments at all the null lands on the main script's slot.
   */
  function NewArgs(argv: seq<string>, node: string, main: string): (r: seq<Option<string>>)
    ensures |r| == |argv| + 2 && r[0] == Some(node) && r[|r| - 1] == None
    ensures argv != [] ==> r[1] == Some(main) && forall i :: 1 <= i < |argv| ==> r[i + 1] == Some(argv[i])
  {
    if argv == [] then [Some(node), None]
    else [Some(node), Some(main)] + Forwarded(argv[1..]) + [None]
  }

  /** The strings `execv` sees: the entries up to the first null. */
  function ExecArgv(v: seq<Option<string>>): seq<string>
  {
    if v == [] || v[0].None? then [] else [v[0].value] + ExecArgv(v[1..])
  }

  lemma {:induction false} ExecArgvForwarded(args: seq<string>)
    ensures ExecArgv(Forwarded(args) + [None]) == args
  {
    if args != [] {
      assert (Forwarded(args) + [None])[1..] == Forwarded(args[1..]) + [None];
      ExecArgvForwarded(args[1..]);
    }
  }

  /** The vector has `argc + 2` entries and ends in its only null: node sees node, main and `argv[1..]` verbatim. */
  lemma NewArgsShape(argv: seq<string>, node: string, main: string)
    requires argv != []
    ensures var v := NewArgs(argv, node, main);
      |v| == |argv| + 2 && v[|v| - 1] == None
      && (forall i :: 0 <= i < |v| - 1 ==> v[i].Some?)
      && ExecArgv(v) == [node, main] + argv[1..]
  {
    var rest := Forwarded(argv[1..]) + [None];
    ExecArgvForwarded(argv[1..]);
    assert NewArgs(argv, node, main) == [Some(node)] + ([Some(main)] + rest);
    assert ([Some(main)] + rest)[1..] == rest;
  }

  /** "--daemonize" is passed on to the server too. */
  lemma DaemonizeForwarded(argv: seq<string>, node: string, main: string)
    requires DaemonizeRequested(argv)
    ensures DaemonizeFlag in ExecArgv(NewArgs(argv, node, main))
  {
    var i :| 1 <= i < |argv| && argv[i] == DaemonizeFlag;
    NewArgsShape(argv, node, main);
    assert ([node, main] + argv[1..])[i + 1] == DaemonizeFlag;
  }

  /** With an empty `argv` the main script is lost. */
  lemma NoArgumentsDropsMain(node: string, main: string)
    ensures ExecArgv(NewArgs([], node, main)) == [node]
  {
    assert [Some(node), None][1..] == [None];
  }

  /** Filling `newargs`: node, main, then `argv[i + 1]` into slot `i + 2`, then the null. */
  method BuildArgs(argv: array<string>, node: string, main: string) returns (newargs: array<Option<string>>)
    ensures newargs[..] == NewArgs(argv[..], node, main)
  {
    newargs := new Option<string>[argv.Length + 2](_ => None);
    newargs[0] := Some(node);
    newargs[1] := Some(main);
    var i := 0;
    while i < argv.Length - 1
      invariant 0 <= i <= (if argv.Length == 0 then 0 else argv.Length - 1)
      invariant newargs[0] == Some(node) && newargs[1] == Some(main)
      invariant forall k :: 2 <= k < i + 2 ==> newargs[k] == Some(argv[k - 1])
    {
      newargs[i + 2] := Some(argv[i + 1]);
      i := i + 1;
    }
    newargs[argv.Length + 1] := None;
    if argv.Length > 0 {
      var expected := NewArgs(argv[..], node, main);
      assert |expected| == newargs.Length;
      forall k | 0 <= k < newargs.Length
        ensures newargs[k] == expected[k]
      {
        if 2 <= k < newargs.Length - 1 {
          assert expected[k] == Forwarded(argv[1..])[k - 2];
        }
      }
    }
  }

  // ---------------------------------------------------------------------
  // main
  // ---------------------------------------------------------------------

  /** How the launcher ends: an exit code, or `execv` of a file with an argument vector. */
  datatype LaunchResult =
    | Exit(code: int)
    | Exec(file: string, args: seq<Option<string>>)

  /** `main`: the daemonize scan, then `findBaseDir`, then `execv` of node with the new vector. */
  method Launch(argv: array<string>, pid: nat, st: LinkStat, rl: LinkRead) returns (daemonCalls: nat, r: LaunchResult)
    ensures daemonCalls == 1 <==> DaemonizeRequested(argv[..])
    ensures daemonCalls <= 1
    ensures r.Exit? <==> |ProcExePath(pid)| > MaxPathLen || LinkFails(st, rl)
    ensures r.Exit? ==> r.code == (if |ProcExePath(pid)| > MaxPathLen then 2 else 1)
    ensures r.Exec? ==>
      && !LinkFails(st, rl)
      && r.file == NodePath(BaseDir(LinkPath(st, rl)))
      && r.args == NewArgs(argv[..], NodePath(BaseDir(LinkPath(st, rl))), MainPath(BaseDir(LinkPath(st, rl))))
  {
    daemonCalls := ScanDaemonize(argv);
    var code, base := FindBaseDir(pid, st, rl);
    if code != 0 {
      return daemonCalls, Exit(code);
    }
    var nodePath := NodePath(base);
    var mainPath := MainPath(base);
    var newargs := BuildArgs(argv, nodePath, mainPath);
    r := Exec(nodePath, newargs[..]);
  }
}

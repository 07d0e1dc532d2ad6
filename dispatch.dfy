/**
 * Where the interposed `open` sends a request: the mode it forwards, and the choice between
 * an openat relative to a preopened directory and the real open of the next library.
 */
module Dispatch {
  import opened Wrappers
  import opened CStrings
  import opened Preopens

  /** Open flag bits as the C library defines them (Linux x86-64 <fcntl.h>). */
  const O_RDONLY: bv32 := 0x0
  const O_CREAT: bv32 := 0x40
  const O_DIRECTORY: bv32 := 0x1_0000

  /** The call the interposed `open` ends up making; its result is what the caller gets. */
  datatype Call =
    | OpenAt(dirfd: int, path: CString, flags: bv32, mode: bv32)
    | RealOpen(pathname: Option<CString>, flags: bv32, mode: bv32)

  /** The mode forwarded: the variadic argument when O_CREAT is set, 0 otherwise. */
  function ModeOf(flags: bv32, modeArg: bv32): bv32
  {
    if flags & O_CREAT != 0 then modeArg else 0
  }

  /**
   * The call made for open(pathname, flags[, modeArg]) against the table: openat on the first
   * matching entry with its prefix stripped, else the real open with the request unchanged.
   */
  function Route(entries: seq<Entry>, pathname: Option<CString>, flags: bv32, modeArg: bv32): Call
  {
    var mode := ModeOf(flags, modeArg);
    match pathname
    case None => RealOpen(pathname, flags, mode)
    case Some(p) =>
      match FirstMatch(entries, p)
      case None => RealOpen(pathname, flags, mode)
      case Some(i) => OpenAt(entries[i].fd, StripPrefix(p, entries[i].path), flags, mode)
  }

  /**
   * Whatever the route, the caller's flags go through unchanged and the mode is the
   * variadic argument exactly when O_CREAT is set.
   */
  lemma RouteForwardsFlagsAndMode(entries: seq<Entry>, pathname: Option<CString>, flags: bv32, modeArg: bv32)
    ensures Route(entries, pathname, flags, modeArg).flags == flags
    ensures Route(entries, pathname, flags, modeArg).mode == if flags & O_CREAT != 0 then modeArg else 0
  {
  }

  /**
   * A request is redirected exactly when some entry's path is a prefix of it; then it goes to
   * the earliest such entry's descriptor, and the prefix, an optional '/' and the relative path
   * rebuild the original path. Otherwise the real open gets the original path.
   */
  lemma RouteRedirectsIffPrefix(entries: seq<Entry>, pathname: Option<CString>, flags: bv32, modeArg: bv32)
    ensures var c := Route(entries, pathname, flags, modeArg);
      c.OpenAt? <==> pathname.Some? && exists j :: 0 <= j < |entries| && entries[j].path <= pathname.value
    ensures var c := Route(entries, pathname, flags, modeArg);
      c.RealOpen? ==> c.pathname == pathname
    ensures var c := Route(entries, pathname, flags, modeArg);
      c.OpenAt? ==>
        exists i :: 0 <= i < |entries| && entries[i].fd == c.dirfd &&
          (pathname.value == entries[i].path + c.path || pathname.value == entries[i].path + ['/'] + c.path) &&
          forall j :: 0 <= j < i ==> !(entries[j].path <= pathname.value)
  {
    if pathname.Some? {
      var m := FirstMatch(entries, pathname.value);
      if m.Some? {
        var i := m.value;
        assert entries[i].path <= pathname.value;
      }
    }
  }

  /**
   * A path P/x under a registered directory P, with no earlier entry a prefix of it, is
   * opened as x relative to P's descriptor.
   */
  lemma OpenUnderPreopen(entries: seq<Entry>, i: nat, x: CString, flags: bv32, modeArg: bv32)
    requires i < |entries|
    requires forall j :: 0 <= j < i ==> !(entries[j].path <= entries[i].path + ['/'] + x)
    ensures Route(entries, Some(entries[i].path + ['/'] + x), flags, modeArg)
         == OpenAt(entries[i].fd, x, flags, ModeOf(flags, modeArg))
  {
    var p := entries[i].path + ['/'] + x;
    StripPrefixSlash(entries[i].path, x);
    assert FirstMatch(entries, p) == Some(i);
  }

  /** With an empty table (the configuration unset) every request goes to the real open unchanged. */
  lemma EmptyTablePassesThrough(pathname: Option<CString>, flags: bv32, modeArg: bv32)
    ensures Route([], pathname, flags, modeArg) == RealOpen(pathname, flags, ModeOf(flags, modeArg))
  {
  }

  /** A NULL pathname never matches and goes to the real open, which decides what NULL means. */
  lemma NullPathPassesThrough(entries: seq<Entry>, flags: bv32, modeArg: bv32)
    ensures Route(entries, None, flags, modeArg) == RealOpen(None, flags, ModeOf(flags, modeArg))
  {
  }

  /** Earliest entry wins over a longer one: with /a then /ab registered, /ab/file goes to /a as b/file. */
  lemma EarliestPrefixWins(fdA: int, fdAb: int, flags: bv32, modeArg: bv32)
    ensures Route([Entry(fdA, "/a"), Entry(fdAb, "/ab")], Some("/ab/file"), flags, modeArg)
         == OpenAt(fdA, "b/file", flags, ModeOf(flags, modeArg))
  {
    var entries := [Entry(fdA, "/a"), Entry(fdAb, "/ab")];
    assert "/a" <= "/ab/file";
    assert FirstMatch(entries, "/ab/file") == Some(0);
    assert "/ab/file"[2..] == "b/file";
  }

  /** Matching ignores path segments: /data matches the sibling /data2/file, which becomes 2/file. */
  lemma SiblingDirectoryMatches(fd: int, flags: bv32, modeArg: bv32)
    ensures Route([Entry(fd, "/data")], Some("/data2/file"), flags, modeArg)
         == OpenAt(fd, "2/file", flags, ModeOf(flags, modeArg))
  {
    assert "/data" <= "/data2/file";
    assert "/data2/file"[5..] == "2/file";
  }
}

/**
 * The preopen shim as process state: the two parallel tables and their count, filled once by
 * the load-time initialiser, and the interposed `open` with its cached pointer to the real open.
 */
module Shim {
  import opened Wrappers
  import opened CStrings
  import opened Preopens
  import opened Dispatch
  import opened Registration

  /** What a call of the interposed `open` comes to: exit(status), or a value returned to the caller. */
  datatype Outcome = Exit(status: int) | Return(value: int)

  /**
   * What initialisation leaves behind for the tokens toks: when the first directory open finds
   * no real open the process has exited with an empty table; otherwise the table is what the
   * fold over the tokens records and the tokens tried are the ones it reached.
   */
  ghost predicate Loaded(toks: seq<CString>, copyOk: nat -> bool, sys: Call -> int, dlsymFinds: bool,
                         exited: bool, entries: seq<Entry>, attempted: seq<CString>, cached: bool)
  {
    if toks != [] && !dlsymFinds then
      exited && entries == [] && attempted == toks[..1]
    else
      var r := Register(Unstarted, toks, copyOk, sys);
      && !exited
      && entries == r.entries
      && r.attempted <= |toks|
      && attempted == toks[..r.attempted]
      && cached == (toks != [])
  }

  /** The loop of initialisation stopped without exiting: its state is what Loaded describes. */
  lemma LoadStopped(toks: seq<CString>, j: nat, slots: seq<nat>, entries: seq<Entry>, attempted: seq<CString>,
                    copyOk: nat -> bool, sys: Call -> int, dlsymFinds: bool, cached: bool)
    requires j <= |toks| && (j == |toks| || |entries| >= MAX_PREOPENED_DIRS)
    requires Register(LoopState(entries, j, slots), toks, copyOk, sys) == Register(Unstarted, toks, copyOk, sys)
    requires attempted == toks[..j] && cached == (j > 0) && (j == 0 ==> toks == [])
    requires cached ==> dlsymFinds
    ensures Loaded(toks, copyOk, sys, dlsymFinds, false, entries, attempted, cached)
  {
    RegisterDone(LoopState(entries, j, slots), toks, copyOk, sys);
  }

  class PreopenLite {
    /** preopened_fds and preopened_paths: slots below count hold the entries; NULL is None. */
    const fds: array<int>
    const paths: array<Option<CString>>
    /** preopened_count */
    var count: nat
    /** Whether dlsym(RTLD_NEXT, "open") finds the real open in this process. */
    const dlsymFinds: bool
    /** Whether the function-static real_open has been set. */
    var realOpenCached: bool
    /** The process has called exit. */
    var exited: bool

    /** The table as a list of entries, configuration order. */
    ghost var Entries: seq<Entry>
    /** The tokens initialisation tried to open, in order. */
    ghost var Attempted: seq<CString>
    /** How many times dlsym was called. */
    ghost var Resolutions: nat

    ghost predicate Valid()
      reads this, fds, paths
    {
      && fds.Length == MAX_PREOPENED_DIRS
      && paths.Length == MAX_PREOPENED_DIRS
      && count == |Entries| <= MAX_PREOPENED_DIRS
      && (forall i :: 0 <= i < count ==> fds[i] == Entries[i].fd && paths[i] == Some(Entries[i].path))
      && WellFormed(Entries)
      && Resolutions <= 1
      && (Resolutions == 1 <==> realOpenCached || exited)
      && (realOpenCached ==> dlsymFinds && !exited)
    }

    /**
     * init_preopenlite. env is getenv("PREOPEN_PATH"); configCopyOk whether strdup of it succeeds;
     * copyOk(j) whether strdup of token j succeeds; sys gives the result of each open or openat.
     */
    constructor Init(env: Option<CString>, configCopyOk: bool, dlsymFinds: bool,
                     copyOk: nat -> bool, sys: Call -> int)
      requires env.Some? ==> NulFree(env.value)
      ensures Valid() && fresh(fds) && fresh(paths)
      ensures this.dlsymFinds == dlsymFinds
      ensures Loaded(ConfiguredTokens(env, configCopyOk), copyOk, sys, dlsymFinds, exited, Entries, Attempted, realOpenCached)
    {
      fds := new int[MAX_PREOPENED_DIRS];
      paths := new Option<CString>[MAX_PREOPENED_DIRS](_ => None);
      this.dlsymFinds := dlsymFinds;
      count := 0;
      realOpenCached := false;
      exited := false;
      Entries := [];
      Attempted := [];
      Resolutions := 0;
      new;
      if env.Some? && configCopyOk {
        Populate(env.value, copyOk, sys);
      } else {
        RegisterDone(Unstarted, [], copyOk, sys);
      }
    }

    /**
     * The loop of init_preopenlite over the tokens of the copied configuration s: try each
     * token as a directory through the interposed `open`, record it on success, and stop
     * when the tokens run out or the table is full.
     */
    method Populate(s: CString, copyOk: nat -> bool, sys: Call -> int)
      requires Valid() && NulFree(s)
      requires !exited && !realOpenCached && Entries == [] && Attempted == []
      modifies this, fds, paths
      ensures Valid()
      ensures Loaded(Tokenize(s), copyOk, sys, dlsymFinds, exited, Entries, Attempted, realOpenCached)
    {
      ghost var toks := Tokenize(s);
      TokensNulFree(s);
      var scan := NextToken(s, 0);
      assert s[0..] == s;
      var j := 0;
      ghost var slots: seq<nat> := [];
      ghost var final := Register(Unstarted, toks, copyOk, sys);
      while scan.token.Some? && count < MAX_PREOPENED_DIRS
        invariant Valid() && !exited
        invariant scan.next <= |s| && j <= |toks|
        invariant toks == toks[..j] + Remaining(s, scan)
        invariant Attempted == toks[..j]
        invariant realOpenCached == (j > 0)
        invariant j == 0 ==> Entries == []
        invariant Register(LoopState(Entries, j, slots), toks, copyOk, sys) == final
        decreases |toks| - j
      {
        var tok := scan.token.value;
        AdvanceToken(s, toks, j, scan);
        assert tok in toks;
        RegisterStep(LoopState(Entries, j, slots), toks, copyOk, sys);
        var res;
        res, slots := Visit(tok, toks, j, slots, copyOk, sys);
        if res.Exit? {
          // exit(1) while still loading: the process ends here
          break;
        }
        j := j + 1;
        scan := NextToken(s, scan.next);
      }
      if exited {
        assert j == 0 && !dlsymFinds && Attempted == toks[..1];
      } else {
        assert j == 0 ==> toks == [];
        LoadStopped(toks, j, slots, Entries, Attempted, copyOk, sys, dlsymFinds, realOpenCached);
      }
    }

    /**
     * One turn of the loop for token j of toks, with the bookkeeping of the fold: after it the
     * fold from token j + 1 over the new table ends where the fold from token j over the old
     * one did.
     */
    method Visit(tok: CString, ghost toks: seq<CString>, j: nat, ghost slots: seq<nat>,
                 copyOk: nat -> bool, sys: Call -> int) returns (res: Outcome, ghost slots': seq<nat>)
      requires Valid() && !exited && count < MAX_PREOPENED_DIRS
      requires j < |toks| && tok == toks[j] && tok != [] && NulFree(tok)
      requires realOpenCached == (j > 0) && (j == 0 ==> Entries == [])
      modifies fds, paths, this`count, this`Entries, this`Attempted, this`realOpenCached, this`exited, this`Resolutions
      ensures Valid() && Attempted == old(Attempted) + [tok]
      ensures if j == 0 && !dlsymFinds then
          res.Exit? && exited && Entries == []
        else
          && res.Return? && !exited && realOpenCached
          && LoopState(Entries, j + 1, slots') == Step(LoopState(old(Entries), j, slots), toks, copyOk, sys)
    {
      Attempted := Attempted + [tok];
      var copied := copyOk(j);
      res := TryDirectory(tok, copied, sys);
      slots' := slots + if res.Return? && res.value != -1 && copied then [j] else [];
    }

    /**
     * One turn of the loop for token tok: open it as a directory through the interposed `open`
     * and, when that returns a descriptor, store it with the copy of the path (copied says
     * whether strdup succeeds).
     */
    method TryDirectory(tok: CString, copied: bool, sys: Call -> int) returns (res: Outcome)
      requires Valid() && !exited && count < MAX_PREOPENED_DIRS
      requires tok != [] && NulFree(tok)
      modifies fds, paths, this`count, this`Entries, this`realOpenCached, this`exited, this`Resolutions
      ensures Valid()
      ensures if !old(realOpenCached) && !dlsymFinds then
          res == Exit(1) && exited && Entries == old(Entries)
        else
          var fd := DirOpenResult(old(Entries), tok, sys);
          && res == Return(fd) && realOpenCached && !exited
          && Entries == old(Entries) + if fd != -1 && copied then [Entry(fd, tok)] else []
    {
      res := Open(Some(tok), DirFlags, 0, sys);
      if res.Exit? {
        return;
      }
      var fd := res.value;
      if fd != -1 {
        Store(fd, tok, copied);
      }
    }

    /**
     * The writes for a successfully opened directory: its descriptor and the copy of its path go
     * into slot count, and count grows only when the copy was made; when strdup returned NULL
     * the slot holds NULL and is reused (the source closes the descriptor here; the model does not).
     */
    method Store(fd: int, tok: CString, copied: bool)
      requires Valid() && count < MAX_PREOPENED_DIRS
      requires fd != -1 && tok != [] && NulFree(tok)
      modifies fds, paths, this`count, this`Entries
      ensures Valid()
      ensures Entries == old(Entries) + if copied then [Entry(fd, tok)] else []
      ensures fds[old(count)] == fd && paths[old(count)] == if copied then Some(tok) else None
    {
      fds[count] := fd;
      if copied {
        paths[count] := Some(tok);
        Entries := Entries + [Entry(fd, tok)];
        count := count + 1;
      } else {
        paths[count] := None;
      }
    }

    /** find_preopened_fd: a linear scan for the first registered path that prefixes pathname. */
    method Lookup(pathname: Option<CString>) returns (fd: int)
      requires Valid()
      requires pathname.Some? ==> NulFree(pathname.value)
      ensures fd == FindFd(Entries, pathname)
    {
      if pathname.None? {
        return -1;
      }
      var p := pathname.value;
      var i := 0;
      while i < count
        invariant 0 <= i <= count
        invariant forall j :: 0 <= j < i ==> !(Entries[j].path <= p)
      {
        if paths[i].Some? {
          var prefix := paths[i].value;
          StrNCmpIsPrefix(p, prefix);
          if StrNCmpZero(p, prefix, |prefix|) {
            return fds[i];
          }
        }
        i := i + 1;
      }
      return -1;
    }

    /**
     * The scan in `open` that finds the entry with descriptor dirfd whose path prefixes p, and
     * strips that prefix and one following '/'; p itself when there is none.
     */
    method RelativePath(p: CString, dirfd: int) returns (rel: CString)
      requires Valid() && NulFree(p)
      ensures rel == RelativePathOf(Entries, p, dirfd)
    {
      rel := p;
      FirstWithFdIsLeast(Entries, p, dirfd);
      var i := 0;
      while i < count
        invariant 0 <= i <= count
        invariant forall j :: 0 <= j < i ==> !(Entries[j].fd == dirfd && Entries[j].path <= p)
      {
        if fds[i] == dirfd {
          var prefix := paths[i].value;
          StrNCmpIsPrefix(p, prefix);
          if StrNCmpZero(p, prefix, |prefix|) {
            rel := p[|prefix|..];
            if |rel| > 0 && rel[0] == '/' {
              rel := rel[1..];
            }
            return;
          }
        }
        i := i + 1;
      }
    }

    /**
     * The interposed open(pathname, flags, ...): modeArg is what va_arg would read; sys gives
     * the result of the call made. Resolves real_open on first use, exiting if it cannot.
     */
    method Open(pathname: Option<CString>, flags: bv32, modeArg: bv32, sys: Call -> int) returns (r: Outcome)
      requires Valid() && !exited
      requires pathname.Some? ==> NulFree(pathname.value)
      modifies this`realOpenCached, this`exited, this`Resolutions
      ensures Valid()
      ensures Resolutions == old(Resolutions) + (if old(realOpenCached) then 0 else 1)
      ensures if !old(realOpenCached) && !dlsymFinds then
          r == Exit(1) && exited
        else
          r == Return(sys(Route(Entries, pathname, flags, modeArg))) && realOpenCached && !exited
    {
      var mode: bv32 := 0;
      if flags & O_CREAT != 0 {
        mode := modeArg;
      }
      if !realOpenCached {
        Resolutions := Resolutions + 1;
        if !dlsymFinds {
          exited := true;
          return Exit(1);
        }
        realOpenCached := true;
      }
      var dirfd := Lookup(pathname);
      FindFdMissIffNoPrefix(Entries, pathname);
      if dirfd != -1 {
        var p := pathname.value;
        var i := FirstMatch(Entries, p).value;
        var rel := RelativePath(p, dirfd);
        RelativePathOfFirstMatch(Entries, p, i);
        return Return(sys(OpenAt(dirfd, rel, flags, mode)));
      }
      return Return(sys(RealOpen(pathname, flags, mode)));
    }
  }
}

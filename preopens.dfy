/**
 * The preopen table as an ordered list of (descriptor, path) entries, and the two scans
 * the shim makes over it: find_preopened_fd's first-prefix lookup and the scan in `open`
 * that looks the matched entry up again by descriptor to strip its prefix.
 */
module Preopens {
  import opened Wrappers
  import opened CStrings

  /** MAX_PREOPENED_DIRS: the capacity of the two parallel tables. */
  const MAX_PREOPENED_DIRS: nat := 10

  /** One registered directory: the descriptor open returned and the token it was opened by. */
  datatype Entry = Entry(fd: int, path: CString)

  /** What every recorded entry satisfies: a real descriptor and a non-empty C string path. */
  predicate WellFormed(entries: seq<Entry>)
  {
    forall e <- entries :: e.fd != -1 && e.path != [] && NulFree(e.path)
  }

  /** The earliest entry whose path is a byte-wise prefix of p, if any. */
  function FirstMatch(entries: seq<Entry>, p: CString): (r: Option<nat>)
    ensures r.Some? ==> r.value < |entries| && entries[r.value].path <= p
    ensures r.Some? ==> forall j :: 0 <= j < r.value ==> !(entries[j].path <= p)
    ensures r.None? ==> forall j :: 0 <= j < |entries| ==> !(entries[j].path <= p)
  {
    if entries == [] then None
    else if entries[0].path <= p then Some(0)
    else match FirstMatch(entries[1..], p)
      case None => None
      case Some(i) => Some(i + 1)
  }

  /** find_preopened_fd: the descriptor of the first matching entry; -1 for NULL or no match. */
  function FindFd(entries: seq<Entry>, pathname: Option<CString>): int
  {
    match pathname
    case None => -1
    case Some(p) =>
      match FirstMatch(entries, p)
      case None => -1
      case Some(i) => entries[i].fd
  }

  /** The entry the second scan in `open` settles on: the first with descriptor fd and a prefix of p. */
  function FirstWithFd(entries: seq<Entry>, p: CString, fd: int): (r: Option<nat>)
    ensures r.Some? ==> r.value < |entries| && entries[r.value].fd == fd && entries[r.value].path <= p
  {
    if entries == [] then None
    else if entries[0].fd == fd && entries[0].path <= p then Some(0)
    else match FirstWithFd(entries[1..], p, fd)
      case None => None
      case Some(i) => Some(i + 1)
  }

  /** The second scan picks the least index meeting both tests, and misses only when none does. */
  lemma {:induction false} FirstWithFdIsLeast(entries: seq<Entry>, p: CString, fd: int)
    ensures var r := FirstWithFd(entries, p, fd);
      r.Some? ==> forall j :: 0 <= j < r.value ==> !(entries[j].fd == fd && entries[j].path <= p)
    ensures FirstWithFd(entries, p, fd).None? ==>
      forall j :: 0 <= j < |entries| ==> !(entries[j].fd == fd && entries[j].path <= p)
  {
    if entries != [] && !(entries[0].fd == fd && entries[0].path <= p) {
      FirstWithFdIsLeast(entries[1..], p, fd);
      assert forall j :: 1 <= j < |entries| ==> entries[j] == entries[1..][j - 1];
    }
  }

  /**
   * Looking the first match up again by its descriptor finds that same entry, even when
   * several entries share the descriptor: every earlier entry already fails the prefix test.
   */
  lemma SecondScanFindsFirstMatch(entries: seq<Entry>, p: CString, i: nat)
    requires FirstMatch(entries, p) == Some(i)
    ensures FirstWithFd(entries, p, entries[i].fd) == Some(i)
  {
    FirstWithFdIsLeast(entries, p, entries[i].fd);
  }

  /**
   * The path handed to openat: p with the prefix's characters dropped, then one leading '/'
   * dropped if present. Putting the prefix (and the dropped '/') back rebuilds p.
   */
  function StripPrefix(p: CString, prefix: CString): (rel: CString)
    requires prefix <= p
    ensures if |p| > |prefix| && p[|prefix|] == '/' then p == prefix + ['/'] + rel else p == prefix + rel
  {
    var rest := p[|prefix|..];
    if |rest| > 0 && rest[0] == '/' then rest[1..] else rest
  }

  /** The relative path `open` computes from pathname p and the descriptor the lookup returned. */
  function RelativePathOf(entries: seq<Entry>, p: CString, fd: int): CString
  {
    match FirstWithFd(entries, p, fd)
    case None => p
    case Some(i) => StripPrefix(p, entries[i].path)
  }

  /** For the descriptor of the first match, the relative path is p with that match's prefix stripped. */
  lemma RelativePathOfFirstMatch(entries: seq<Entry>, p: CString, i: nat)
    requires FirstMatch(entries, p) == Some(i)
    ensures RelativePathOf(entries, p, entries[i].fd) == StripPrefix(p, entries[i].path)
  {
    SecondScanFindsFirstMatch(entries, p, i);
  }

  /** Stripping a prefix followed by '/' yields exactly what followed the '/'. */
  lemma StripPrefixSlash(prefix: CString, x: CString)
    ensures prefix <= prefix + ['/'] + x
    ensures StripPrefix(prefix + ['/'] + x, prefix) == x
  {
    var p := prefix + ['/'] + x;
    assert p[|prefix|..] == ['/'] + x;
  }

  /** When what follows the prefix does not start with '/', it is handed over unchanged. */
  lemma StripPrefixNoSlash(prefix: CString, x: CString)
    requires x == [] || x[0] != '/'
    ensures prefix <= prefix + x
    ensures StripPrefix(prefix + x, prefix) == x
  {
    assert (prefix + x)[|prefix|..] == x;
  }

  /**
   * find_preopened_fd answers -1 exactly when no entry's path is a prefix of the query
   * (or the query is NULL), given that no recorded descriptor is -1.
   */
  lemma FindFdMissIffNoPrefix(entries: seq<Entry>, pathname: Option<CString>)
    requires WellFormed(entries)
    ensures FindFd(entries, pathname) == -1 <==>
      pathname.None? || forall j :: 0 <= j < |entries| ==> !(entries[j].path <= pathname.value)
  {
    if pathname.Some? && FirstMatch(entries, pathname.value).Some? {
      assert entries[FirstMatch(entries, pathname.value).value] in entries;
    }
  }

  /** find_preopened_fd returns the descriptor of the least index whose path is a prefix of the query. */
  lemma FindFdIsLeastPrefix(entries: seq<Entry>, p: CString, i: nat)
    requires i < |entries| && entries[i].path <= p
    requires forall j :: 0 <= j < i ==> !(entries[j].path <= p)
    ensures FindFd(entries, Some(p)) == entries[i].fd
  {
  }
}

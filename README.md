# libpreopen-lite: a verified model of the preopen shim

libpreopen-lite is a shared library that is loaded in front of the C library and exports its own `open`. It gives a process "preopened" directories.

At load time, `init_preopenlite` reads the environment variable `PREOPEN_PATH`, a `:`-separated list of directories. It splits the list with `strtok_r`, so empty fields are skipped, and opens each token with `O_DIRECTORY | O_RDONLY`. It records each directory that opened, together with a copy of its path, in two parallel tables of `MAX_PREOPENED_DIRS = 10` slots.

The interposed `open(pathname, flags, ...)` does the following:
- It reads the mode argument only when `O_CREAT` is set.
- On its first call it resolves the next library's `open` with `dlsym` and caches it. If that fails, it calls `exit(1)`.
- It looks for the first recorded path that is a byte-wise prefix of `pathname`.
- If there is one, it strips that prefix and at most one `/`, and returns `openat(dirfd, rel, flags, mode)`.
- Otherwise it returns the real `open(pathname, flags, mode)`.

The Dafny project has six modules, one per concern:

- `Wrappers` holds `Option`.
- `CStrings` models C strings as NUL-free `seq<char>`:
  - `strncmp(a, b, strlen(b)) == 0`, proved to be exactly the prefix test;
  - `strcspn` and `strspn`;
  - `strtok_r` with `:` as one resumable call (`NextToken`), proved to yield `Tokenize`, the list of non-empty fields of `Split`.
- `Preopens` holds the table as a list of `(fd, path)` entries, and the two scans over it:
  - find_preopened_fd's first-prefix lookup (`FirstMatch`, `FindFd`);
  - the second scan in `open`, which looks the match up again by descriptor (`FirstWithFd`) and strips the prefix (`StripPrefix`).
- `Dispatch` holds the call `open` makes (`Route`): an `OpenAt` or a `RealOpen`, with the mode it forwards.
- `Registration` holds the specification of the initialisation loop. It is a fold, `Register`, of the one-turn function `Step` over the tokens, and the lemmas prove that the result is:
  - bounded;
  - stopped only by a full table;
  - well formed;
  - explained token by token: each entry was accepted against the entries before it, and each skipped token was rejected.
- `Shim` holds the process state as a class `PreopenLite`:
  - the arrays `fds` and `paths`, the counter `count`, the cached-pointer flag and the exit flag;
  - the load-time constructor `Init`, whose loop is proved against `Register`;
  - `Lookup` and `RelativePath`, whose loops are proved against `FindFd` and `RelativePathOf`;
  - the interposed `Open`. Its frame excludes the tables, so it cannot change them.

The directory open inside `init_preopenlite` calls `open`, and in this library that name is the interposed `open` itself. The model follows this:
- Each token's directory open is routed against the entries recorded so far.
- That first directory open is also where the real `open` is resolved. If the list yields a token and `dlsym` fails, the process exits at that first token with an empty table. With no token, no directory open is made and `dlsym` is not called at load time.

The outside world is passed in as parameters:
- `sys: Call -> int` gives the result of every `openat` or real `open`.
- `configCopyOk` and `copyOk(j)` say whether `strdup` of the whole list and of token `j` succeed.
- `dlsymFinds` says whether `dlsym` finds the real `open`.
- `env` is the value of `getenv("PREOPEN_PATH")`, and `None` stands for NULL.
- Flags and mode are 32-bit vectors, with the Linux x86-64 values `O_CREAT = 0x40`, `O_DIRECTORY = 0x10000` and `O_RDONLY = 0`.

## Model

| member | source | states |
|---|---|---|
| CStrings.StrNCmpIsPrefix | libpreopen-lite/preopenlite.c:65 | for NUL-free strings, strncmp(a, b, strlen(b)) == 0 holds exactly when b is a prefix of a |
| CStrings.Span | libpreopen-lite/preopenlite.c:34 | the scan strtok_r makes for a token: the characters before it are not ':', and the one after it, if any, is ':' |
| CStrings.Skip | libpreopen-lite/preopenlite.c:34 | strtok_r skips leading delimiters: every skipped character is ':', and the next one, if any, is not |
| CStrings.Tokenize | libpreopen-lite/preopenlite.c:34 | every token strtok_r yields is non-empty and contains no ':' |
| CStrings.Split | libpreopen-lite/preopenlite.c:34 | the ':'-separated fields of the list: at least one, none containing ':' |
| CStrings.JoinSplit | libpreopen-lite/preopenlite.c:34 | joining the fields with ':' rebuilds the configuration string, so the field reading loses nothing |
| CStrings.TokenizeIsNonEmptyFields | libpreopen-lite/preopenlite.c:34 | the tokens are exactly the non-empty fields, in order; leading, trailing and doubled ':' yield no token |
| CStrings.TokenizeSkip | libpreopen-lite/preopenlite.c:52 | leading delimiters contribute no token |
| CStrings.TokensNulFree | libpreopen-lite/preopenlite.c:38 | each token of a NUL-free string is a non-empty NUL-free string |
| CStrings.NextToken | libpreopen-lite/preopenlite.c:52 | one strtok_r call resuming at pos: NULL when no token is left, otherwise the next token, after which the tokens still to come are the rest of the list |
| Preopens.FirstMatch | libpreopen-lite/preopenlite.c:64-69 | the index found is the least one whose path is a prefix of the query; None means no entry's path is |
| Preopens.FindFdMissIffNoPrefix | libpreopen-lite/preopenlite.c:59-72 | find_preopened_fd returns -1 exactly when the path is NULL or no recorded path is a prefix of it |
| Preopens.FindFdIsLeastPrefix | libpreopen-lite/preopenlite.c:64-68 | it returns the descriptor of the least index whose path is a prefix of the query |
| Preopens.FirstWithFd | libpreopen-lite/preopenlite.c:99-109 | the index the second scan settles on has the descriptor sought and a path that is a prefix |
| Preopens.FirstWithFdIsLeast | libpreopen-lite/preopenlite.c:99-109 | that index is the least meeting both tests, and the scan misses only when no index does |
| Preopens.SecondScanFindsFirstMatch | libpreopen-lite/preopenlite.c:96-110 | looking the first match up again by its descriptor finds that same index, even if descriptors repeat |
| Preopens.StripPrefix | libpreopen-lite/preopenlite.c:103-106 | the relative path with the prefix, and the stripped '/' when there was one, rebuilds the original path |
| Preopens.StripPrefixSlash | libpreopen-lite/preopenlite.c:104-106 | for P + "/" + x the relative path is exactly x |
| Preopens.StripPrefixNoSlash | libpreopen-lite/preopenlite.c:103-104 | when what follows the prefix does not start with '/', it is handed over unchanged |
| Preopens.RelativePathOfFirstMatch | libpreopen-lite/preopenlite.c:98-110 | for the matched descriptor, the relative path is the query with the first match's prefix stripped |
| Dispatch.RouteForwardsFlagsAndMode | libpreopen-lite/preopenlite.c:78-85 | the flags are forwarded unchanged, and the mode is the variadic argument exactly when O_CREAT is set, otherwise 0 |
| Dispatch.RouteRedirectsIffPrefix | libpreopen-lite/preopenlite.c:96-122 | openat is used exactly when some recorded path is a prefix of the pathname, on the earliest such entry's descriptor, with a relative path that rebuilds the pathname; otherwise the real open gets the pathname unchanged |
| Dispatch.OpenUnderPreopen | libpreopen-lite/preopenlite.c:96-112 | P/x under a registered P, with no earlier match, becomes openat(fd of P, x, flags, mode) |
| Dispatch.EmptyTablePassesThrough | libpreopen-lite/preopenlite.c:121-122 | with an empty table every request goes to the real open unchanged |
| Dispatch.NullPathPassesThrough | libpreopen-lite/preopenlite.c:60-63 | a NULL pathname never matches and goes to the real open |
| Dispatch.EarliestPrefixWins | libpreopen-lite/preopenlite.c:64-67 | with /a then /ab registered, /ab/file is opened as b/file relative to /a: the earliest entry wins, not the longest |
| Dispatch.SiblingDirectoryMatches | libpreopen-lite/preopenlite.c:65 | matching is not aware of path components: /data matches /data2/file, which becomes 2/file |
| Registration.RegisterBounds | libpreopen-lite/preopenlite.c:36-48 | the table never exceeds 10 entries, keeps its earlier entries and gains at most one entry per token tried; it stops before the last token only when full |
| Registration.RegisterStopsWhenFull | libpreopen-lite/preopenlite.c:36 | once the table is full no further token is tried: the entry that filled it belongs to the last token attempted |
| Registration.RegisterWellFormed | libpreopen-lite/preopenlite.c:39-48 | every recorded entry has a descriptor other than -1 and a non-empty path equal to one of the tokens |
| Registration.StepExplained | libpreopen-lite/preopenlite.c:38-51 | a turn records token j exactly when its directory open returned a descriptor and the path copy succeeded; a rejected token leaves the slot free |
| Registration.RegisterExplained | libpreopen-lite/preopenlite.c:36-53 | the whole loop is explained token by token: every entry came from an accepted token with the descriptor its open returned, and every attempted token in between was rejected |
| Registration.RegistryFacts | libpreopen-lite/preopenlite.c:18-57 | initialisation walks the non-empty fields, stays within the table, stops early only right after filling it, records only well-formed entries from the tokens, and is explained token by token |
| Registration.UnsetLeavesTableEmpty | libpreopen-lite/preopenlite.c:20-24 | with PREOPEN_PATH unset nothing is attempted and the table stays empty |
| Shim.PreopenLite.Init | libpreopen-lite/preopenlite.c:18-57 | the loaded state is the fold over the configured tokens, and the tokens tried are exactly those the fold reached; if the list yields a token and dlsym fails, the process has exited at that first token with an empty table |
| Shim.PreopenLite.Populate | libpreopen-lite/preopenlite.c:33-55 | the strtok_r loop over the copied list leaves the table the fold describes and tries the tokens in order |
| Shim.PreopenLite.Visit | libpreopen-lite/preopenlite.c:37-52 | one turn of the loop performs exactly one Step of the fold, or exits at the first token when dlsym fails |
| Shim.PreopenLite.TryDirectory | libpreopen-lite/preopenlite.c:38-51 | the directory open goes through the interposed open; on a descriptor the entry is recorded exactly when the copy succeeded |
| Shim.PreopenLite.Store | libpreopen-lite/preopenlite.c:40-48 | the descriptor and path copy go into slot count, and count grows only when strdup succeeded, so the slot is otherwise reused |
| Shim.PreopenLite.Lookup | libpreopen-lite/preopenlite.c:59-72 | the array scan returns what FindFd specifies: the first prefix match's descriptor, or -1 |
| Shim.PreopenLite.RelativePath | libpreopen-lite/preopenlite.c:98-110 | the second array scan yields the relative path RelativePathOf specifies |
| Shim.PreopenLite.Open | libpreopen-lite/preopenlite.c:74-123 | it caches the real open on first use (dlsym is called at most once) and exits with status 1 if that fails; otherwise it returns the result of the routed call unchanged, without touching the tables |

## Left out

- Real I/O: `open`, `openat`, `close` and `getenv` are not performed. Their results, and the value of the variable, come in as parameters.
- `dlsym` and `dlerror`: the loader and symbol interposition are foreign calls, stood in for by the constant `dlsymFinds`.
- `exit(1)` is modelled as an `Exit(1)` outcome plus a flag. Nothing is modelled after it.
- `va_list`/`va_arg`: the variadic mode is the parameter `modeArg`. It is read only when `O_CREAT` is set, as in the source.
- `DEBUG_PRINT`, `fprintf`, `errno` and `strerror`: diagnostics only.
- The load-order guarantee of `__attribute__((constructor))` and the unsynchronised check-then-set of the static `real_open`: concurrency is outside the model.
- Heap behaviour of `strdup` and `free`: only success or failure is modelled. The modelled behaviour leaves out three things:
  - the path copies are never freed;
  - a failed path copy leaves its descriptor in `fds[count]` (the source closes it, which is not modelled);
  - the descriptors of recorded directories are never closed.
- The partial initialiser of `preopened_fds` (`{-1}` sets only slot 0). Slots at or above `count` are never read, so the model leaves their contents unspecified.
- `strtok_r` writes NUL bytes into the copied list in place. The model reads tokens by position instead, which gives the same tokens.
- `sys` is a function, so two calls with the same arguments are taken to return the same result. The model does not represent a file system that changes between calls.
- `O_TMPFILE` also requires a mode in C, but the source checks only `O_CREAT`. The model does the same.
- Pointer validity and `pathname` strings that are not NUL-terminated: C strings are modelled by their contents.
- libpreopen-lite/test/test.c, a consumer doing plain file I/O, and libpreopen-lite/preopenlite.h, a prototype only, are not part of this model.

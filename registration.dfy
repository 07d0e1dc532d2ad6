/**
 * What init_preopenlite records: the configuration's tokens are tried in order, each by a
 * directory open that itself goes through the interposed `open` (so it sees the entries
 * recorded so far), until the tokens run out or the table holds MAX_PREOPENED_DIRS entries.
 */
module Registration {
  import opened Wrappers
  import opened CStrings
  import opened Preopens
  import opened Dispatch

  /** The flags of the directory open made for each token. */
  const DirFlags: bv32 := O_DIRECTORY | O_RDONLY

  /**
   * The state of the initialisation loop, and its outcome: the entries recorded, how many
   * tokens were tried, and for each entry the index of the token it was recorded for.
   */
  datatype LoopState = LoopState(entries: seq<Entry>, attempted: nat, slots: seq<nat>)

  /** The tokens the loop walks: none when PREOPEN_PATH is unset or its copy could not be made. */
  function ConfiguredTokens(env: Option<CString>, configCopyOk: bool): seq<CString>
  {
    if env.Some? && configCopyOk then Tokenize(env.value) else []
  }

  /** The descriptor the directory open for tok returns, given the entries recorded so far. */
  function DirOpenResult(entries: seq<Entry>, tok: CString, sys: Call -> int): int
  {
    sys(Route(entries, Some(tok), DirFlags, 0))
  }

  /** Token number j is recorded: its directory open succeeded and so did the copy of its path. */
  predicate Accepted(entries: seq<Entry>, tok: CString, j: nat, copyOk: nat -> bool, sys: Call -> int)
  {
    DirOpenResult(entries, tok, sys) != -1 && copyOk(j)
  }

  /** The state before the first turn of the loop: nothing recorded, nothing tried. */
  const Unstarted: LoopState := LoopState([], 0, [])

  /**
   * One turn of the loop: token number r.attempted is tried against the entries recorded so
   * far and, when accepted, recorded with the descriptor its directory open returned.
   */
  function Step(r: LoopState, toks: seq<CString>, copyOk: nat -> bool, sys: Call -> int): LoopState
    requires r.attempted < |toks|
  {
    var j := r.attempted;
    if Accepted(r.entries, toks[j], j, copyOk, sys) then
      LoopState(r.entries + [Entry(DirOpenResult(r.entries, toks[j], sys), toks[j])], j + 1, r.slots + [j])
    else
      LoopState(r.entries, j + 1, r.slots)
  }

  /** The loop of init_preopenlite from state r on: turns while tokens remain and the table has room. */
  function Register(r: LoopState, toks: seq<CString>, copyOk: nat -> bool, sys: Call -> int): LoopState
    decreases |toks| - r.attempted
  {
    if r.attempted < |toks| && |r.entries| < MAX_PREOPENED_DIRS then
      Register(Step(r, toks, copyOk, sys), toks, copyOk, sys)
    else
      r
  }

  /** A turn of the loop taken while tokens remain and the table has room. */
  lemma RegisterStep(r: LoopState, toks: seq<CString>, copyOk: nat -> bool, sys: Call -> int)
    requires r.attempted < |toks| && |r.entries| < MAX_PREOPENED_DIRS
    ensures Register(r, toks, copyOk, sys) == Register(Step(r, toks, copyOk, sys), toks, copyOk, sys)
  {
  }

  /** The loop is over once the tokens are exhausted or the table is full. */
  lemma RegisterDone(r: LoopState, toks: seq<CString>, copyOk: nat -> bool, sys: Call -> int)
    requires r.attempted >= |toks| || |r.entries| >= MAX_PREOPENED_DIRS
    ensures Register(r, toks, copyOk, sys) == r
  {
  }

  /** The registration a whole initialisation produces. */
  function Registry(env: Option<CString>, configCopyOk: bool, copyOk: nat -> bool, sys: Call -> int): LoopState
  {
    Register(Unstarted, ConfiguredTokens(env, configCopyOk), copyOk, sys)
  }

  /**
   * The table never exceeds its capacity, earlier entries are kept, at most one entry is
   * recorded per token tried, and the loop stops before the last token only because the
   * table is full.
   */
  lemma {:induction false} RegisterBounds(r: LoopState, toks: seq<CString>, copyOk: nat -> bool, sys: Call -> int)
    requires |r.entries| <= MAX_PREOPENED_DIRS && r.attempted <= |toks|
    ensures var f := Register(r, toks, copyOk, sys);
      && r.attempted <= f.attempted <= |toks|
      && |r.entries| <= |f.entries| <= MAX_PREOPENED_DIRS
      && f.entries[..|r.entries|] == r.entries
      && |f.entries| - |r.entries| <= f.attempted - r.attempted
      && (f.attempted < |toks| ==> |f.entries| == MAX_PREOPENED_DIRS)
    decreases |toks| - r.attempted
  {
    if r.attempted < |toks| && |r.entries| < MAX_PREOPENED_DIRS {
      var n := Step(r, toks, copyOk, sys);
      RegisterBounds(n, toks, copyOk, sys);
      var f := Register(n, toks, copyOk, sys);
      assert f.entries[..|r.entries|] == f.entries[..|n.entries|][..|r.entries|];
    }
  }

  /**
   * Once the table is full nothing more is tried: when the loop recorded its last entry, that
   * entry's token is the last one attempted.
   */
  lemma {:induction false} RegisterStopsWhenFull(r: LoopState, toks: seq<CString>, copyOk: nat -> bool, sys: Call -> int)
    requires |r.entries| < MAX_PREOPENED_DIRS && |r.slots| == |r.entries|
    ensures var f := Register(r, toks, copyOk, sys);
      |f.entries| >= MAX_PREOPENED_DIRS ==> |f.slots| > 0 && f.slots[|f.slots| - 1] + 1 == f.attempted
    decreases |toks| - r.attempted
  {
    if r.attempted < |toks| {
      var n := Step(r, toks, copyOk, sys);
      if |n.entries| < MAX_PREOPENED_DIRS {
        RegisterStopsWhenFull(n, toks, copyOk, sys);
      } else {
        RegisterDone(n, toks, copyOk, sys);
      }
    }
  }

  /** Every recorded entry has a real descriptor and a non-empty path that is one of the tokens. */
  lemma {:induction false} RegisterWellFormed(r: LoopState, toks: seq<CString>, copyOk: nat -> bool, sys: Call -> int)
    requires WellFormed(r.entries)
    requires forall t <- toks :: t != [] && NulFree(t)
    ensures var f := Register(r, toks, copyOk, sys);
      WellFormed(f.entries) && forall e <- f.entries :: e in r.entries || e.path in toks
    decreases |toks| - r.attempted
  {
    if r.attempted < |toks| && |r.entries| < MAX_PREOPENED_DIRS {
      assert toks[r.attempted] in toks;
      RegisterWellFormed(Step(r, toks, copyOk, sys), toks, copyOk, sys);
    }
  }

  /** The first token index of the gap before entry k (the gap after the last entry when k == |slots|). */
  function GapStart(slots: seq<nat>, k: nat): nat
    requires k <= |slots|
  {
    if k == 0 then 0 else slots[k - 1] + 1
  }

  /** One past the last token index of the gap before entry k. */
  function GapEnd(slots: seq<nat>, k: nat, attempted: nat): nat
    requires k <= |slots|
  {
    if k == |slots| then attempted else slots[k]
  }

  /** The slots are token indices below the number attempted, one per entry, increasing. */
  ghost predicate SlotsOrdered(r: LoopState, toks: seq<CString>)
  {
    && |r.slots| == |r.entries|
    && r.attempted <= |toks|
    && (forall k :: 0 <= k < |r.slots| ==> r.slots[k] < r.attempted)
    && (forall k :: 0 < k < |r.slots| ==> r.slots[k - 1] < r.slots[k])
  }

  /**
   * Entry k was recorded for token slots[k], which was accepted against the entries before it,
   * with the descriptor its directory open returned.
   */
  ghost predicate SlotsAccepted(r: LoopState, toks: seq<CString>, copyOk: nat -> bool, sys: Call -> int)
    requires SlotsOrdered(r, toks)
  {
    forall k :: 0 <= k < |r.slots| ==>
      && r.entries[k] == Entry(DirOpenResult(r.entries[..k], toks[r.slots[k]], sys), toks[r.slots[k]])
      && Accepted(r.entries[..k], toks[r.slots[k]], r.slots[k], copyOk, sys)
  }

  /** Every attempted token between two slots was rejected against the entries recorded before it. */
  ghost predicate GapsRejected(r: LoopState, toks: seq<CString>, copyOk: nat -> bool, sys: Call -> int)
    requires SlotsOrdered(r, toks)
  {
    forall k, j :: 0 <= k <= |r.slots| && GapStart(r.slots, k) <= j < GapEnd(r.slots, k, r.attempted) ==>
      !Accepted(r.entries[..k], toks[j], j, copyOk, sys)
  }

  /** r is explained by the tokens attempted in order, the accepted ones and the rejected ones. */
  ghost predicate Explains(r: LoopState, toks: seq<CString>, copyOk: nat -> bool, sys: Call -> int)
  {
    SlotsOrdered(r, toks) && SlotsAccepted(r, toks, copyOk, sys) && GapsRejected(r, toks, copyOk, sys)
  }

  /** One turn of the loop keeps the registration explained by the tokens attempted so far. */
  lemma StepExplained(r: LoopState, toks: seq<CString>, copyOk: nat -> bool, sys: Call -> int)
    requires r.attempted < |toks|
    requires Explains(r, toks, copyOk, sys)
    ensures Explains(Step(r, toks, copyOk, sys), toks, copyOk, sys)
  {
    if Accepted(r.entries, toks[r.attempted], r.attempted, copyOk, sys) {
      AcceptKeepsSlotsAccepted(r.entries, r.slots, toks, r.attempted, copyOk, sys);
      AcceptKeepsGapsRejected(r.entries, r.slots, toks, r.attempted, copyOk, sys);
    } else {
      RejectKeepsGapsRejected(r.entries, r.slots, toks, r.attempted, copyOk, sys);
      assert SlotsAccepted(Step(r, toks, copyOk, sys), toks, copyOk, sys);
    }
  }

  /** The whole loop keeps the registration explained by the tokens attempted so far. */
  lemma {:induction false} RegisterExplained(r: LoopState, toks: seq<CString>, copyOk: nat -> bool, sys: Call -> int)
    requires r.attempted <= |toks|
    requires Explains(r, toks, copyOk, sys)
    ensures Explains(Register(r, toks, copyOk, sys), toks, copyOk, sys)
    decreases |toks| - r.attempted
  {
    if r.attempted < |toks| && |r.entries| < MAX_PREOPENED_DIRS {
      StepExplained(r, toks, copyOk, sys);
      RegisterExplained(Step(r, toks, copyOk, sys), toks, copyOk, sys);
    }
  }

  /** Appending keeps every prefix up to the old length. */
  lemma PrefixOfAppend(entries: seq<Entry>, x: Entry, k: nat)
    requires k <= |entries|
    ensures (entries + [x])[..k] == entries[..k]
  {
  }

  /** Recording an accepted token keeps every entry accounted for by its slot. */
  lemma AcceptKeepsSlotsAccepted(entries: seq<Entry>, slots: seq<nat>, toks: seq<CString>, j: nat,
                                 copyOk: nat -> bool, sys: Call -> int)
    requires j < |toks|
    requires SlotsOrdered(LoopState(entries, j, slots), toks)
    requires SlotsAccepted(LoopState(entries, j, slots), toks, copyOk, sys)
    requires Accepted(entries, toks[j], j, copyOk, sys)
    ensures SlotsOrdered(LoopState(entries + [Entry(DirOpenResult(entries, toks[j], sys), toks[j])], j + 1, slots + [j]), toks)
    ensures SlotsAccepted(LoopState(entries + [Entry(DirOpenResult(entries, toks[j], sys), toks[j])], j + 1, slots + [j]),
                          toks, copyOk, sys)
  {
    var x := Entry(DirOpenResult(entries, toks[j], sys), toks[j]);
    var e := entries + [x];
    var s := slots + [j];
    forall k | 0 <= k < |s|
      ensures e[k] == Entry(DirOpenResult(e[..k], toks[s[k]], sys), toks[s[k]])
      ensures Accepted(e[..k], toks[s[k]], s[k], copyOk, sys)
    {
      PrefixOfAppend(entries, x, k);
      if k == |slots| {
        assert entries[..k] == entries;
      }
    }
  }

  /** Recording an accepted token leaves the earlier gaps as they were and opens an empty one. */
  lemma AcceptKeepsGapsRejected(entries: seq<Entry>, slots: seq<nat>, toks: seq<CString>, j: nat,
                                copyOk: nat -> bool, sys: Call -> int)
    requires j < |toks|
    requires SlotsOrdered(LoopState(entries, j, slots), toks)
    requires GapsRejected(LoopState(entries, j, slots), toks, copyOk, sys)
    requires SlotsOrdered(LoopState(entries + [Entry(DirOpenResult(entries, toks[j], sys), toks[j])], j + 1, slots + [j]), toks)
    ensures GapsRejected(LoopState(entries + [Entry(DirOpenResult(entries, toks[j], sys), toks[j])], j + 1, slots + [j]),
                         toks, copyOk, sys)
  {
    var x := Entry(DirOpenResult(entries, toks[j], sys), toks[j]);
    var e := entries + [x];
    var s := slots + [j];
    forall k, i | 0 <= k <= |s| && GapStart(s, k) <= i < GapEnd(s, k, j + 1)
      ensures !Accepted(e[..k], toks[i], i, copyOk, sys)
    {
      assert k < |s|;
      PrefixOfAppend(entries, x, k);
      assert GapStart(s, k) == GapStart(slots, k);
      assert GapEnd(s, k, j + 1) == GapEnd(slots, k, j);
    }
  }

  /** Skipping a rejected token keeps the earlier gaps and grows the gap after the last entry by one. */
  lemma RejectKeepsGapsRejected(entries: seq<Entry>, slots: seq<nat>, toks: seq<CString>, j: nat,
                                copyOk: nat -> bool, sys: Call -> int)
    requires j < |toks|
    requires SlotsOrdered(LoopState(entries, j, slots), toks)
    requires GapsRejected(LoopState(entries, j, slots), toks, copyOk, sys)
    requires !Accepted(entries, toks[j], j, copyOk, sys)
    ensures SlotsOrdered(LoopState(entries, j + 1, slots), toks)
    ensures GapsRejected(LoopState(entries, j + 1, slots), toks, copyOk, sys)
  {
    forall k, i | 0 <= k <= |slots| && GapStart(slots, k) <= i < GapEnd(slots, k, j + 1)
      ensures !Accepted(entries[..k], toks[i], i, copyOk, sys)
    {
      if i == j {
        assert k == |slots| && entries[..k] == entries;
      } else {
        assert GapStart(slots, k) <= i < GapEnd(slots, k, j);
      }
    }
  }

  /**
   * Initialisation as a whole: it walks the non-empty ':'-separated fields, stays within the
   * table, stops early only when full and right after the filling entry, and is explained token
   * by token.
   */
  lemma RegistryFacts(env: Option<CString>, configCopyOk: bool, copyOk: nat -> bool, sys: Call -> int)
    requires env.Some? ==> NulFree(env.value)
    ensures var toks := ConfiguredTokens(env, configCopyOk);
      var r := Registry(env, configCopyOk, copyOk, sys);
      && |r.entries| <= MAX_PREOPENED_DIRS
      && r.attempted <= |toks|
      && (r.attempted < |toks| ==> |r.entries| == MAX_PREOPENED_DIRS)
      && (|r.entries| == MAX_PREOPENED_DIRS ==> |r.slots| > 0 && r.slots[|r.slots| - 1] + 1 == r.attempted)
      && (env.Some? && configCopyOk ==> toks == NonEmpty(Split(env.value)))
      && WellFormed(r.entries)
      && (forall e <- r.entries :: e.path in toks)
      && Explains(r, toks, copyOk, sys)
  {
    var toks := ConfiguredTokens(env, configCopyOk);
    if env.Some? && configCopyOk {
      TokensNulFree(env.value);
      TokenizeIsNonEmptyFields(env.value);
    }
    RegisterBounds(Unstarted, toks, copyOk, sys);
    RegisterWellFormed(Unstarted, toks, copyOk, sys);
    RegisterStopsWhenFull(Unstarted, toks, copyOk, sys);
    RegisterExplained(Unstarted, toks, copyOk, sys);
  }

  /** With PREOPEN_PATH unset nothing is attempted and the table stays empty. */
  lemma UnsetLeavesTableEmpty(configCopyOk: bool, copyOk: nat -> bool, sys: Call -> int)
    ensures Registry(None, configCopyOk, copyOk, sys) == Unstarted
  {
  }
}

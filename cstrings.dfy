/**
 * The C string primitives the shim relies on, over NUL-free character sequences:
 * strncmp (as used for prefix tests), and strtok_r with the ':' delimiter, which
 * splits the configuration into tokens and skips empty fields.
 */
module CStrings {
  import opened Wrappers

  /** A C string: its characters up to, and not including, the NUL terminator. */
  type CString = seq<char>

  predicate NulFree(s: CString) { '\0' !in s }

  /** The delimiter the configuration list is split on. */
  const Delim: char := ':'

  /** The character strncmp reads at index i: the terminator (and nothing else) past the end. */
  function At(s: CString, i: nat): char
  {
    if i < |s| then s[i] else '\0'
  }

  /** strncmp(a, b, n) == 0: the first n characters agree, stopping early at a common terminator. */
  function StrNCmpZero(a: CString, b: CString, n: nat): bool
    decreases n
  {
    if n == 0 then true
    else if At(a, 0) != At(b, 0) then false
    else if At(a, 0) == '\0' then true
    else StrNCmpZero(a[1..], b[1..], n - 1)
  }

  /** strncmp(a, b, strlen(b)) == 0 holds exactly when b is a byte-wise prefix of a. */
  lemma {:induction false} StrNCmpIsPrefix(a: CString, b: CString)
    requires NulFree(a) && NulFree(b)
    ensures StrNCmpZero(a, b, |b|) <==> b <= a
  {
    if |b| > 0 && |a| > 0 && a[0] == b[0] {
      StrNCmpIsPrefix(a[1..], b[1..]);
      assert b <= a <==> b[1..] <= a[1..];
    }
  }

  /** strcspn(s, ":"): the length of the leading run of non-delimiter characters. */
  function Span(s: CString): (n: nat)
    ensures n <= |s|
    ensures forall i :: 0 <= i < n ==> s[i] != Delim
    ensures n < |s| ==> s[n] == Delim
  {
    if s == [] || s[0] == Delim then 0 else 1 + Span(s[1..])
  }

  /** strspn(s, ":"): the length of the leading run of delimiters. */
  function Skip(s: CString): (n: nat)
    ensures n <= |s|
    ensures forall i :: 0 <= i < n ==> s[i] == Delim
    ensures n < |s| ==> s[n] != Delim
  {
    if s != [] && s[0] == Delim then 1 + Skip(s[1..]) else 0
  }

  /** The tokens strtok_r yields for s, in order: maximal runs of non-delimiter characters. */
  function Tokenize(s: CString): (toks: seq<CString>)
    ensures forall t <- toks :: t != [] && Delim !in t
    decreases |s|
  {
    if s == [] then []
    else if s[0] == Delim then Tokenize(s[1..])
    else
      var n := Span(s);
      [s[..n]] + Tokenize(s[n..])
  }

  /** The ':'-separated fields of s, empty ones included (an independent reading of the list). */
  function Split(s: CString): (fields: seq<CString>)
    ensures |fields| >= 1
    ensures forall f <- fields :: Delim !in f
    decreases |s|
  {
    var n := Span(s);
    if n == |s| then [s] else [s[..n]] + Split(s[n + 1..])
  }

  /** The fields of a list that are not empty, in order. */
  function NonEmpty(fields: seq<CString>): seq<CString>
  {
    if fields == [] then []
    else if fields[0] == [] then NonEmpty(fields[1..])
    else [fields[0]] + NonEmpty(fields[1..])
  }

  /** Joins fields back together with the delimiter between consecutive fields. */
  function Join(fields: seq<CString>): seq<char>
  {
    if fields == [] then []
    else if |fields| == 1 then fields[0]
    else fields[0] + [Delim] + Join(fields[1..])
  }

  /** Splitting loses nothing: joining the fields rebuilds the string. */
  lemma {:induction false} JoinSplit(s: CString)
    ensures Join(Split(s)) == s
    decreases |s|
  {
    var n := Span(s);
    if n < |s| {
      JoinSplit(s[n + 1..]);
      assert s == s[..n] + [Delim] + s[n + 1..];
    }
  }

  /** strtok_r yields exactly the non-empty fields: leading, trailing and doubled ':' yield nothing. */
  lemma {:induction false} TokenizeIsNonEmptyFields(s: CString)
    ensures Tokenize(s) == NonEmpty(Split(s))
    decreases |s|
  {
    var n := Span(s);
    if s == [] {
    } else if s[0] == Delim {
      TokenizeIsNonEmptyFields(s[1..]);
      assert Split(s) == [[]] + Split(s[1..]);
    } else if n == |s| {
      assert s[..n] == s && s[n..] == [];
    } else {
      TokenizeIsNonEmptyFields(s[n + 1..]);
      assert s[n..][1..] == s[n + 1..];
      assert Tokenize(s[n..]) == Tokenize(s[n + 1..]);
    }
  }

  /** Leading delimiters contribute no token. */
  lemma {:induction false} TokenizeSkip(s: CString)
    ensures Tokenize(s) == Tokenize(s[Skip(s)..])
    decreases |s|
  {
    if s != [] && s[0] == Delim {
      TokenizeSkip(s[1..]);
      assert s[1..][Skip(s[1..])..] == s[Skip(s)..];
    }
  }

  /** One call of strtok_r: the token it yields (NULL as None) and the index the next call resumes at. */
  datatype Scan = Scan(token: Option<CString>, next: nat)

  /**
   * strtok_r(str, ":", &saveptr) resuming at index pos: skip delimiters; at the end yield NULL;
   * otherwise yield the run up to the next delimiter and resume just after that delimiter.
   */
  function NextToken(s: CString, pos: nat): (r: Scan)
    requires pos <= |s|
    ensures r.next <= |s|
    ensures r.token.Some? ==> pos < r.next
    ensures Tokenize(s[pos..]) == if r.token.None? then [] else [r.token.value] + Tokenize(s[r.next..])
  {
    var start := pos + Skip(s[pos..]);
    SkippedPrefix(s, pos);
    if start == |s| then
      assert s[start..] == [];
      Scan(None, start)
    else
      var stop := start + Span(s[start..]);
      var next := if stop < |s| then stop + 1 else stop;
      TokenAt(s, start, stop, next);
      Scan(Some(s[start..stop]), next)
  }

  /** The delimiters skipped from pos on contribute no token. */
  lemma SkippedPrefix(s: CString, pos: nat)
    requires pos <= |s|
    ensures Tokenize(s[pos..]) == Tokenize(s[pos + Skip(s[pos..])..])
  {
    TokenizeSkip(s[pos..]);
    assert s[pos..][Skip(s[pos..])..] == s[pos + Skip(s[pos..])..];
  }

  /** At a non-delimiter, the first token runs to the next delimiter, which is then skipped. */
  lemma TokenAt(s: CString, start: nat, stop: nat, next: nat)
    requires start < |s| && s[start] != Delim
    requires stop == start + Span(s[start..])
    requires next == if stop < |s| then stop + 1 else stop
    ensures Tokenize(s[start..]) == [s[start..stop]] + Tokenize(s[next..])
  {
    var t := s[start..];
    var n := Span(t);
    assert t[..n] == s[start..stop];
    assert t[n..] == s[stop..];
    assert Tokenize(t) == [t[..n]] + Tokenize(t[n..]);
    if stop < |s| {
      assert s[stop..][1..] == s[next..];
    }
  }

  /** The tokens of a C string are C strings. */
  lemma {:induction false} TokensNulFree(s: CString)
    requires NulFree(s)
    ensures forall t <- Tokenize(s) :: NulFree(t)
    decreases |s|
  {
    if s != [] {
      if s[0] == Delim {
        TokensNulFree(s[1..]);
      } else {
        var n := Span(s);
        assert forall c <- s[..n] :: c in s;
        TokensNulFree(s[n..]);
      }
    }
  }

  /**
   * The tokens still to come from a strtok_r position: none when the current token is NULL,
   * otherwise the current token followed by the tokens after it.
   */
  function Remaining(s: CString, scan: Scan): seq<CString>
    requires scan.next <= |s|
  {
    if scan.token.None? then [] else [scan.token.value] + Tokenize(s[scan.next..])
  }

  /** Advancing strtok_r past the j-th token leaves the rest of the token list to come. */
  lemma AdvanceToken(s: CString, toks: seq<CString>, j: nat, scan: Scan)
    requires scan.next <= |s| && scan.token.Some? && j <= |toks|
    requires toks == toks[..j] + Remaining(s, scan)
    ensures j < |toks| && toks[j] == scan.token.value
    ensures toks[..j + 1] == toks[..j] + [scan.token.value]
    ensures toks == toks[..j + 1] + Remaining(s, NextToken(s, scan.next))
  {
    var tok := scan.token.value;
    var rest := Tokenize(s[scan.next..]);
    assert Remaining(s, NextToken(s, scan.next)) == rest;
    assert toks == (toks[..j] + [tok]) + rest;
    assert toks[..j + 1] == toks[..j] + [tok];
  }
}

/** The few string operations of Go's `strings` and `strconv` packages, and of
    Python's `str`, that the modules rely on. */
module Text {

  datatype Option<+T> = None | Some(value: T)

  /** unicode.IsSpace. */
  predicate IsSpace(c: char) {
    || '\t' <= c <= '\r' || c == ' ' || c == '\U{85}' || c == '\U{A0}' || c == '\U{1680}'
    || '\U{2000}' <= c <= '\U{200A}' || c == '\U{2028}' || c == '\U{2029}'
    || c == '\U{202F}' || c == '\U{205F}' || c == '\U{3000}'
  }

  function TrimLeft(s: string): string {
    if s != "" && IsSpace(s[0]) then TrimLeft(s[1..]) else s
  }

  function TrimRight(s: string): string {
    if s != "" && IsSpace(s[|s| - 1]) then TrimRight(s[..|s| - 1]) else s
  }

  function TrimSpace(s: string): string {
    TrimRight(TrimLeft(s))
  }

  predicate IsTrimmed(s: string) {
    s == "" || (!IsSpace(s[0]) && !IsSpace(s[|s| - 1]))
  }

  lemma {:induction false} TrimLeftStartsClean(s: string)
    ensures TrimLeft(s) == "" || !IsSpace(TrimLeft(s)[0])
  {
    if s != "" && IsSpace(s[0]) {
      TrimLeftStartsClean(s[1..]);
    }
  }

  lemma {:induction false} TrimRightKeepsStart(s: string)
    ensures TrimRight(s) == "" || (s != "" && TrimRight(s)[0] == s[0] && !IsSpace(TrimRight(s)[|TrimRight(s)| - 1]))
  {
    if s != "" && IsSpace(s[|s| - 1]) {
      TrimRightKeepsStart(s[..|s| - 1]);
    }
  }

  lemma TrimSpaceTrims(s: string)
    ensures IsTrimmed(TrimSpace(s))
  {
    TrimLeftStartsClean(s);
    TrimRightKeepsStart(TrimLeft(s));
  }

  predicate AllSpace(s: string) {
    forall c :: c in s ==> IsSpace(c)
  }

  lemma {:induction false} TrimLeftCuts(s: string) returns (lead: string)
    ensures s == lead + TrimLeft(s) && AllSpace(lead)
  {
    lead := "";
    if s != "" && IsSpace(s[0]) {
      var rest := TrimLeftCuts(s[1..]);
      lead := [s[0]] + rest;
      assert s == [s[0]] + s[1..];
    }
  }

  lemma {:induction false} TrimRightCuts(s: string) returns (trail: string)
    ensures s == TrimRight(s) + trail && AllSpace(trail)
  {
    trail := "";
    if s != "" && IsSpace(s[|s| - 1]) {
      var rest := TrimRightCuts(s[..|s| - 1]);
      trail := rest + [s[|s| - 1]];
      assert s == s[..|s| - 1] + [s[|s| - 1]];
    }
  }

  /** Only white space is cut off, and all of it at both ends. */
  lemma TrimSpaceCuts(s: string) returns (lead: string, trail: string)
    ensures s == lead + TrimSpace(s) + trail && AllSpace(lead) && AllSpace(trail) && IsTrimmed(TrimSpace(s))
  {
    lead := TrimLeftCuts(s);
    trail := TrimRightCuts(TrimLeft(s));
    TrimSpaceTrims(s);
  }

  lemma TrimmedIsFixed(s: string)
    requires IsTrimmed(s)
    ensures TrimSpace(s) == s
  {
  }

  /** The index of the first '=' at or after `from`, or |s|. */
  function FirstEquals(s: string, from: nat): (i: nat)
    requires from <= |s|
    ensures from <= i <= |s|
    ensures i < |s| ==> s[i] == '='
    ensures forall k :: from <= k < i ==> s[k] != '='
    decreases |s| - from
  {
    if from == |s| || s[from] == '=' then from else FirstEquals(s, from + 1)
  }

  lemma FirstEqualsIs(s: string, from: nat, i: nat)
    requires from <= i <= |s|
    requires i < |s| ==> s[i] == '='
    requires forall k :: from <= k < i ==> s[k] != '='
    ensures FirstEquals(s, from) == i
  {
  }

  /** strconv.ParseBool. */
  function ParseBool(s: string): Option<bool> {
    if s in {"1", "t", "T", "TRUE", "true", "True"} then Some(true)
    else if s in {"0", "f", "F", "FALSE", "false", "False"} then Some(false)
    else None
  }

  predicate HasPrefix(s: string, prefix: string) {
    |s| >= |prefix| && s[..|prefix|] == prefix
  }

  // ---- Python ----

  /** str.isspace of one character. */
  predicate PythonSpace(c: char) {
    IsSpace(c) || '\U{1C}' <= c <= '\U{1F}'
  }

  /** str.strip. */
  function Strip(s: string): string {
    if s != "" && PythonSpace(s[0]) then Strip(s[1..])
    else if s != "" && PythonSpace(s[|s| - 1]) then Strip(s[..|s| - 1])
    else s
  }

  lemma OneMoreBefore(x: char, a: string, b: string, c: string)
    ensures [x] + (a + b + c) == [x] + a + b + c
  {
  }

  lemma OneMoreAfter(a: string, b: string, c: string, x: char)
    ensures a + b + c + [x] == a + b + (c + [x])
  {
  }

  lemma {:induction false} StripCuts(s: string) returns (lead: string, trail: string)
    ensures s == lead + Strip(s) + trail && forall c :: c in lead || c in trail ==> PythonSpace(c)
    ensures Strip(s) == "" || (!PythonSpace(Strip(s)[0]) && !PythonSpace(Strip(s)[|Strip(s)| - 1]))
    decreases |s|
  {
    lead, trail := "", "";
    if s != "" && PythonSpace(s[0]) {
      lead, trail := StripCuts(s[1..]);
      OneMoreBefore(s[0], lead, Strip(s), trail);
      lead := [s[0]] + lead;
      assert s == [s[0]] + s[1..];
    } else if s != "" && PythonSpace(s[|s| - 1]) {
      lead, trail := StripCuts(s[..|s| - 1]);
      OneMoreAfter(lead, Strip(s), trail, s[|s| - 1]);
      trail := trail + [s[|s| - 1]];
      assert s == s[..|s| - 1] + [s[|s| - 1]];
    }
  }
}

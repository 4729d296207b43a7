/** The JavaScript string operations the core relies on: `trim`,
    `toLowerCase` (ASCII letters only), `startsWith`, `includes` and
    `slice(n)` with one argument. */
module JsText {

  /** The characters `String.prototype.trim` removes: the ECMAScript
      WhiteSpace (tab, vertical tab, form feed, space, no-break space, byte
      order mark and every space separator) and LineTerminator code points. */
  predicate IsTrimmable(c: char) {
    || c == '\t' || c == '\n' || c == '\U{B}' || c == '\U{C}' || c == '\r'
    || c == ' ' || c == '\U{A0}' || c == '\U{1680}'
    || ('\U{2000}' <= c <= '\U{200A}')
    || c == '\U{2028}' || c == '\U{2029}' || c == '\U{202F}' || c == '\U{205F}'
    || c == '\U{3000}' || c == '\U{FEFF}'
  }

  function TrimStart(s: string): string {
    if s != [] && IsTrimmable(s[0]) then TrimStart(s[1..]) else s
  }

  function TrimEnd(s: string): string {
    if s != [] && IsTrimmable(s[|s| - 1]) then TrimEnd(s[..|s| - 1]) else s
  }

  /** `s.trim()` */
  function Trim(s: string): string {
    TrimEnd(TrimStart(s))
  }

  /** A string that `trim` leaves alone: empty, or neither end trimmable. */
  predicate IsTrimmed(t: string) {
    t == [] || (!IsTrimmable(t[0]) && !IsTrimmable(t[|t| - 1]))
  }

  lemma {:induction false} TrimStartShape(s: string)
    ensures |TrimStart(s)| <= |s|
    ensures TrimStart(s) == s[|s| - |TrimStart(s)|..]
    ensures TrimStart(s) == [] || !IsTrimmable(TrimStart(s)[0])
    ensures forall k :: 0 <= k < |s| - |TrimStart(s)| ==> IsTrimmable(s[k])
    decreases |s|
  {
    if s != [] && IsTrimmable(s[0]) {
      TrimStartShape(s[1..]);
      assert forall k :: 1 <= k < |s| ==> s[k] == s[1..][k - 1];
    }
  }

  lemma {:induction false} TrimEndShape(s: string)
    ensures |TrimEnd(s)| <= |s|
    ensures TrimEnd(s) == s[..|TrimEnd(s)|]
    ensures TrimEnd(s) == [] || !IsTrimmable(TrimEnd(s)[|TrimEnd(s)| - 1])
    ensures forall k :: |TrimEnd(s)| <= k < |s| ==> IsTrimmable(s[k])
    decreases |s|
  {
    if s != [] && IsTrimmable(s[|s| - 1]) {
      TrimEndShape(s[..|s| - 1]);
      assert forall k :: 0 <= k < |s| - 1 ==> s[k] == s[..|s| - 1][k];
    }
  }

  /** `t` is what is left of `s` once whitespace is removed from both ends
      and from nowhere else, with no whitespace left at either end. */
  ghost predicate IsTrimOf(s: string, t: string) {
    IsTrimmed(t) && exists i :: TrimmedAt(s, t, i)
  }

  /** `t` sits in `s` from position `i`, with only whitespace around it. */
  predicate TrimmedAt(s: string, t: string, i: int) {
    && 0 <= i <= |s| - |t| && s[i..i + |t|] == t
    && (forall k :: 0 <= k < i ==> IsTrimmable(s[k]))
    && (forall k :: i + |t| <= k < |s| ==> IsTrimmable(s[k]))
  }

  /** What `trim` returns is no longer than its input, has no trimmable
      character at either end, and is the input with whitespace removed
      from both ends only. */
  lemma TrimShape(s: string)
    ensures |Trim(s)| <= |s|
    ensures IsTrimmed(Trim(s))
    ensures IsTrimOf(s, Trim(s))
  {
    var a := TrimStart(s);
    TrimStartShape(s);
    TrimEndShape(a);
    var t := TrimEnd(a);
    if t != [] {
      assert t[0] == a[0];
    }
    var i := |s| - |a|;
    assert s[i..i + |t|] == t;
    assert TrimmedAt(s, t, i) by {
      forall k | i + |t| <= k < |s|
        ensures IsTrimmable(s[k])
      {
        assert s[k] == a[k - i];
      }
    }
  }

  /** Only one string is a trim of `s`: `IsTrimOf` characterises `trim`. */
  lemma TrimIsUnique(s: string, t: string)
    requires IsTrimOf(s, t)
    ensures t == Trim(s)
  {
    TrimShape(s);
    var u := Trim(s);
    var i :| TrimmedAt(s, t, i);
    var h :| TrimmedAt(s, u, h);
    if t != [] && u != [] {
      assert s[i] == t[0] && s[h] == u[0];
      assert s[i + |t| - 1] == t[|t| - 1] && s[h + |u| - 1] == u[|u| - 1];
      assert i == h;
      assert i + |t| == h + |u|;
    }
  }

  /** `trim` changes nothing in a string that is already trimmed. */
  lemma TrimOfTrimmed(t: string)
    requires IsTrimmed(t)
    ensures Trim(t) == t
  {
    assert TrimStart(t) == t;
    assert TrimEnd(t) == t;
  }

  /** `trim` is idempotent. */
  lemma TrimIdempotent(s: string)
    ensures Trim(Trim(s)) == Trim(s)
  {
    TrimShape(s);
    TrimOfTrimmed(Trim(s));
  }

  lemma {:induction false} TrimStartEmptyIffBlank(s: string)
    ensures TrimStart(s) == [] <==> forall i :: 0 <= i < |s| ==> IsTrimmable(s[i])
    decreases |s|
  {
    if s != [] && IsTrimmable(s[0]) {
      TrimStartEmptyIffBlank(s[1..]);
      assert forall i :: 1 <= i < |s| ==> s[i] == s[1..][i - 1];
    }
  }

  lemma {:induction false} TrimEndEmptyIffBlank(s: string)
    ensures TrimEnd(s) == [] <==> forall i :: 0 <= i < |s| ==> IsTrimmable(s[i])
    decreases |s|
  {
    if s != [] && IsTrimmable(s[|s| - 1]) {
      TrimEndEmptyIffBlank(s[..|s| - 1]);
      assert forall i :: 0 <= i < |s| - 1 ==> s[i] == s[..|s| - 1][i];
    }
  }

  /** `trim` returns the empty string exactly when every character is
      whitespace. */
  lemma TrimEmptyIffBlank(s: string)
    ensures Trim(s) == [] <==> forall i :: 0 <= i < |s| ==> IsTrimmable(s[i])
  {
    var a := TrimStart(s);
    TrimStartEmptyIffBlank(s);
    TrimStartShape(s);
    TrimEndEmptyIffBlank(a);
    if a != [] {
      assert !IsTrimmable(a[0]);
    }
  }

  /** `toLowerCase` on one character, for the ASCII letters. */
  function LowerChar(c: char): char {
    if 'A' <= c <= 'Z' then (c as int + 32) as char else c
  }

  /** `s.toLowerCase()`, for the ASCII letters. */
  function ToLower(s: string): (r: string)
    ensures |r| == |s|
    ensures forall i :: 0 <= i < |r| ==> !('A' <= r[i] <= 'Z')
    ensures forall i :: 0 <= i < |s| && !('A' <= s[i] <= 'Z') ==> r[i] == s[i]
    ensures forall i :: 0 <= i < |s| && 'A' <= s[i] <= 'Z' ==>
              'a' <= r[i] <= 'z' && r[i] as int - 'a' as int == s[i] as int - 'A' as int
  {
    seq(|s|, i requires 0 <= i < |s| => LowerChar(s[i]))
  }

  /** Lower-casing twice is lower-casing once. */
  lemma ToLowerIdempotent(s: string)
    ensures ToLower(ToLower(s)) == ToLower(s)
  {
  }

  /** `s.startsWith(prefix)` */
  predicate StartsWith(s: string, prefix: string) {
    |prefix| <= |s| && s[..|prefix|] == prefix
  }

  /** `s.includes(part)` */
  predicate Includes(s: string, part: string)
    decreases |s|
  {
    StartsWith(s, part) || (s != [] && Includes(s[1..], part))
  }

  /** A string that includes a piece includes every prefix of that piece. */
  lemma {:induction false} IncludesPrefix(s: string, part: string, shorter: string)
    requires Includes(s, part)
    requires StartsWith(part, shorter)
    ensures Includes(s, shorter)
    decreases |s|
  {
    if StartsWith(s, part) {
      assert s[..|shorter|] == part[..|shorter|];
    } else {
      IncludesPrefix(s[1..], part, shorter);
    }
  }

  /** `s.slice(n)` for a non-negative `n`: past the end it is empty. */
  function SliceFrom(s: string, n: nat): (r: string)
    ensures n <= |s| ==> s[..n] + r == s
    ensures |s| <= n ==> r == ""
  {
    if n <= |s| then s[n..] else ""
  }
}

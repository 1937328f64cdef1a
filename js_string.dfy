/** The few ECMAScript string built-ins the two components rely on: the whitespace class shared by
    `String.prototype.trim` and the regular-expression escape `\s`, `trim` itself, `toLowerCase`,
    and `replace(/\s+/g, '-')`. */
module JsString {

  /** A WhiteSpace or LineTerminator code point of ECMAScript: exactly the code points that `\s`
      matches and that `trim` strips (tab, line feed, vertical tab, form feed, carriage return,
      the Unicode space separators, the line and paragraph separators, and the byte order mark). */
  predicate IsWhiteSpace(c: char) {
    c == '\t' || c == '\n' || c == '\U{000B}' || c == '\U{000C}' || c == '\r' || c == ' '
    || c == '\U{00A0}' || c == '\U{1680}' || ('\U{2000}' <= c <= '\U{200A}')
    || c == '\U{2028}' || c == '\U{2029}' || c == '\U{202F}' || c == '\U{205F}'
    || c == '\U{3000}' || c == '\U{FEFF}'
  }

  predicate NoWhiteSpace(s: string) {
    forall k :: 0 <= k < |s| ==> !IsWhiteSpace(s[k])
  }

  predicate AllWhiteSpace(s: string) {
    forall k :: 0 <= k < |s| ==> IsWhiteSpace(s[k])
  }

  /** Neither the first nor the last character is whitespace: what `trim` leaves. */
  predicate Trimmed(s: string) {
    s == [] || (!IsWhiteSpace(s[0]) && !IsWhiteSpace(s[|s| - 1]))
  }

  predicate IsAsciiUpper(c: char) { 'A' <= c <= 'Z' }

  predicate NoAsciiUpper(s: string) {
    forall k :: 0 <= k < |s| ==> !IsAsciiUpper(s[k])
  }

  /** Removes the leading whitespace run (see `TrimStartShape`). */
  function TrimStart(s: string): string {
    if s != [] && IsWhiteSpace(s[0]) then TrimStart(s[1..]) else s
  }

  /** Removes the trailing whitespace run (see `TrimEndShape`). */
  function TrimEnd(s: string): string {
    if s != [] && IsWhiteSpace(s[|s| - 1]) then TrimEnd(s[..|s| - 1]) else s
  }

  /** `s` is a whitespace prefix followed by `TrimStart(s)`, which does not start with whitespace. */
  lemma {:induction false} TrimStartShape(s: string)
    ensures var r := TrimStart(s);
      |r| <= |s| && r == s[|s| - |r|..] && AllWhiteSpace(s[..|s| - |r|])
      && (r == [] || !IsWhiteSpace(r[0]))
  {
    if s != [] && IsWhiteSpace(s[0]) {
      TrimStartShape(s[1..]);
      var r := TrimStart(s[1..]);
      assert s[1..][|s| - 1 - |r|..] == s[|s| - |r|..];
      assert s[..|s| - |r|] == [s[0]] + s[1..][..|s| - 1 - |r|];
    }
  }

  /** `s` is `TrimEnd(s)` followed by a whitespace suffix, and `TrimEnd(s)` does not end with
      whitespace. */
  lemma {:induction false} TrimEndShape(s: string)
    ensures var r := TrimEnd(s);
      |r| <= |s| && r == s[..|r|] && AllWhiteSpace(s[|r|..])
      && (r == [] || !IsWhiteSpace(r[|r| - 1]))
  {
    if s != [] && IsWhiteSpace(s[|s| - 1]) {
      var p := s[..|s| - 1];
      TrimEndShape(p);
      var r := TrimEnd(p);
      assert p[..|r|] == s[..|r|];
      assert s[|r|..] == p[|r|..] + [s[|s| - 1]];
    }
  }

  /** `String.prototype.trim`: the result neither starts nor ends with whitespace; what it cuts
      off is stated by `TrimCutsWhiteSpace`. */
  function Trim(s: string): (r: string)
    ensures Trimmed(r) && |r| <= |s|
  {
    TrimStartShape(s);
    TrimEndShape(TrimStart(s));
    TrimEnd(TrimStart(s))
  }

  /** `s` splits into a whitespace prefix, `Trim(s)` and a whitespace suffix. */
  lemma TrimCutsWhiteSpace(s: string)
    ensures exists i :: (0 <= i <= |s| - |Trim(s)| && s[i..i + |Trim(s)|] == Trim(s)
                         && AllWhiteSpace(s[..i]) && AllWhiteSpace(s[i + |Trim(s)|..]))
  {
    var t := TrimStart(s);
    TrimStartShape(s);
    TrimEndShape(t);
    TrimSplits(s, t, TrimEnd(t));
  }

  /** The pieces `trim` cuts off: the whitespace prefix of `s` before `t`, and the whitespace
      suffix of `t` after `r`. */
  lemma TrimSplits(s: string, t: string, r: string)
    requires |t| <= |s| && t == s[|s| - |t|..] && AllWhiteSpace(s[..|s| - |t|])
    requires |r| <= |t| && r == t[..|r|] && AllWhiteSpace(t[|r|..])
    ensures var i := |s| - |t|;
      0 <= i <= |s| - |r| && s[i..i + |r|] == r && AllWhiteSpace(s[..i]) && AllWhiteSpace(s[i + |r|..])
  {
    var i := |s| - |t|;
    assert s[i + |r|..] == t[|r|..];
  }

  lemma TrimOfTrimmed(s: string)
    requires Trimmed(s)
    ensures Trim(s) == s
  {
  }

  /** `trim` is idempotent. */
  lemma TrimIdempotent(s: string)
    ensures Trim(Trim(s)) == Trim(s)
  {
    TrimOfTrimmed(Trim(s));
  }

  /** Stripping a whitespace run in front of a string that does not start with whitespace. */
  lemma {:induction false} TrimStartPastRun(w: string, b: string)
    requires AllWhiteSpace(w)
    requires b == [] || !IsWhiteSpace(b[0])
    ensures TrimStart(w + b) == b
  {
    if w == [] {
      assert w + b == b;
    } else {
      assert (w + b)[1..] == w[1..] + b;
      TrimStartPastRun(w[1..], b);
    }
  }

  /** A string made only of whitespace trims to the empty string. */
  lemma {:induction false} TrimAllWhiteSpace(s: string)
    requires AllWhiteSpace(s)
    ensures Trim(s) == ""
  {
    TrimStartPastRun(s, []);
    assert s + [] == s;
  }

  /** `toLowerCase`, restricted to the ASCII letters (the only letters the tab labels hold). */
  function LowerChar(c: char): (d: char)
    ensures !IsAsciiUpper(d)
    ensures IsAsciiUpper(c) ==> d as int == c as int + 32
    ensures !IsAsciiUpper(c) ==> d == c
  {
    if IsAsciiUpper(c) then (c as int + 32) as char else c
  }

  function ToLowerCase(s: string): string {
    seq(|s|, k requires 0 <= k < |s| => LowerChar(s[k]))
  }

  /** Same length, no capital left, whitespace where the input has it, non-capitals kept. */
  lemma ToLowerCaseShape(s: string)
    ensures var r := ToLowerCase(s);
      |r| == |s| && NoAsciiUpper(r)
      && (forall k :: 0 <= k < |r| ==> (IsWhiteSpace(r[k]) <==> IsWhiteSpace(s[k])))
      && (forall k :: 0 <= k < |r| && !IsAsciiUpper(s[k]) ==> r[k] == s[k])
  {
  }

  /** Lower-casing distributes over concatenation. */
  lemma ToLowerCaseConcat(a: string, b: string)
    ensures ToLowerCase(a + b) == ToLowerCase(a) + ToLowerCase(b)
  {
    assert forall k :: 0 <= k < |a + b| ==> ToLowerCase(a + b)[k] == (ToLowerCase(a) + ToLowerCase(b))[k];
  }

  /** A string without capitals is its own lower-case form. */
  lemma ToLowerCaseNoUpper(s: string)
    requires NoAsciiUpper(s)
    ensures ToLowerCase(s) == s
  {
    assert forall k :: 0 <= k < |s| ==> ToLowerCase(s)[k] == s[k];
  }

  /** `s.replace(/\s+/g, '-')`: every maximal whitespace run becomes one hyphen. Its properties
      are the lemmas below. */
  function DashWhiteSpaceRuns(s: string): string {
    DashRunsFrom(s, false)
  }

  /** The scan behind `DashWhiteSpaceRuns`; `inRun` says the character before `s` was whitespace
      already replaced by the hyphen of its run. */
  function DashRunsFrom(s: string, inRun: bool): string {
    if s == [] then []
    else if IsWhiteSpace(s[0]) then
      (if inRun then DashRunsFrom(s[1..], true) else "-" + DashRunsFrom(s[1..], true))
    else
      [s[0]] + DashRunsFrom(s[1..], false)
  }

  /** The replacement leaves no whitespace, adds no upper-case letter, never lengthens the
      string, and leaves a string without whitespace unchanged. */
  lemma {:induction false} DashRunsShape(s: string, inRun: bool)
    ensures var r := DashRunsFrom(s, inRun);
      |r| <= |s| && NoWhiteSpace(r) && (NoAsciiUpper(s) ==> NoAsciiUpper(r))
      && (NoWhiteSpace(s) ==> r == s)
  {
    if s != [] {
      DashRunsShape(s[1..], IsWhiteSpace(s[0]));
      var t := DashRunsFrom(s[1..], IsWhiteSpace(s[0]));
      if !IsWhiteSpace(s[0]) {
        assert DashRunsFrom(s, inRun) == [s[0]] + t;
        assert NoWhiteSpace(s) ==> NoWhiteSpace(s[1..]) && t == s[1..];
        assert s == [s[0]] + s[1..];
      }
    }
  }

  lemma DashWhiteSpaceRunsShape(s: string)
    ensures var r := DashWhiteSpaceRuns(s);
      |r| <= |s| && NoWhiteSpace(r) && (NoAsciiUpper(s) ==> NoAsciiUpper(r))
      && (NoWhiteSpace(s) ==> r == s)
  {
    DashRunsShape(s, false);
  }

  /** The rest of a whitespace run adds nothing once its hyphen is written. */
  lemma {:induction false} RunAbsorbed(w: string, b: string)
    requires AllWhiteSpace(w)
    requires b == [] || !IsWhiteSpace(b[0])
    ensures DashRunsFrom(w + b, true) == DashRunsFrom(b, false)
  {
    if w == [] {
      assert w + b == b;
    } else {
      assert (w + b)[0] == w[0];
      assert (w + b)[1..] == w[1..] + b;
      RunAbsorbed(w[1..], b);
    }
  }

  /** The regular-expression replacement collapses a whole whitespace run, however long, into one
      hyphen and leaves the word before it alone. */
  lemma {:induction false} DashRun(a: string, w: string, b: string)
    requires NoWhiteSpace(a)
    requires w != [] && AllWhiteSpace(w)
    requires b == [] || !IsWhiteSpace(b[0])
    ensures DashWhiteSpaceRuns(a + w + b) == a + "-" + DashWhiteSpaceRuns(b)
  {
    var s := a + w + b;
    if a == [] {
      assert s == w + b && IsWhiteSpace(s[0]);
      assert s[1..] == w[1..] + b;
      RunAbsorbed(w[1..], b);
    } else {
      assert s[0] == a[0] && !IsWhiteSpace(s[0]);
      assert s[1..] == a[1..] + w + b;
      DashRun(a[1..], w, b);
      assert a + "-" + DashWhiteSpaceRuns(b) == [a[0]] + (a[1..] + "-" + DashWhiteSpaceRuns(b));
    }
  }

  /** Three words separated by single spaces become three words separated by hyphens. */
  lemma DashBetweenWords(x: string, y: string, z: string)
    requires NoWhiteSpace(x) && NoWhiteSpace(y) && NoWhiteSpace(z) && y != [] && z != []
    ensures DashWhiteSpaceRuns(x + " " + y + " " + z) == x + "-" + y + "-" + z
  {
    DashWhiteSpaceRunsShape(z);
    DashRun(y, " ", z);
    assert x + " " + y + " " + z == x + " " + (y + " " + z);
    DashRun(x, " ", y + " " + z);
  }
}

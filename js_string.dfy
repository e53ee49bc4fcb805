/** JavaScript's String.prototype.trim, as used by the send guard of the chat
    panel: it strips white space and line terminators from both ends. */
module JsString {

  /** The code points ECMAScript counts as WhiteSpace or LineTerminator:
      TAB, VT, FF, ZWNBSP, every Zs space separator, LF, CR, LS and PS. */
  const TrimmedChars: set<char> := {
    '\t', '\n', '\U{B}', '\U{C}', '\r', ' ', '\U{A0}', '\U{1680}',
    '\U{2000}', '\U{2001}', '\U{2002}', '\U{2003}', '\U{2004}', '\U{2005}',
    '\U{2006}', '\U{2007}', '\U{2008}', '\U{2009}', '\U{200A}',
    '\U{2028}', '\U{2029}', '\U{202F}', '\U{205F}', '\U{3000}', '\U{FEFF}'
  }

  predicate IsTrimmed(c: char) {
    c in TrimmedChars
  }

  /** Every character of `s` satisfies `isSpace`. */
  predicate AllSpace(s: string, isSpace: char -> bool) {
    forall i :: 0 <= i < |s| ==> isSpace(s[i])
  }

  /** Drops the leading white space. */
  function TrimStart(s: string, isSpace: char -> bool): (r: string)
    ensures |r| <= |s|
  {
    if s != [] && isSpace(s[0]) then TrimStart(s[1..], isSpace) else s
  }

  /** Drops the trailing white space. */
  function TrimEnd(s: string, isSpace: char -> bool): (r: string)
    ensures |r| <= |s|
  {
    if s != [] && isSpace(s[|s| - 1]) then TrimEnd(s[..|s| - 1], isSpace) else s
  }

  /** TrimStart keeps a suffix of `s`, everything it drops is white space, and
      what it keeps does not start with white space. */
  lemma {:induction false} TrimStartSpec(s: string, isSpace: char -> bool)
    ensures var r := TrimStart(s, isSpace);
      |r| <= |s| && r == s[|s| - |r|..] && AllSpace(s[..|s| - |r|], isSpace) &&
      (r != [] ==> !isSpace(r[0]))
  {
    if s != [] && isSpace(s[0]) {
      TrimStartSpec(s[1..], isSpace);
      var r := TrimStart(s, isSpace);
      assert s[..|s| - |r|] == [s[0]] + s[1..][..|s| - 1 - |r|];
    }
  }

  /** TrimEnd keeps a prefix of `s`, everything it drops is white space, and
      what it keeps does not end with white space. */
  lemma {:induction false} TrimEndSpec(s: string, isSpace: char -> bool)
    ensures var r := TrimEnd(s, isSpace);
      |r| <= |s| && r == s[..|r|] && AllSpace(s[|r|..], isSpace) &&
      (r != [] ==> !isSpace(r[|r| - 1]))
  {
    if s != [] && isSpace(s[|s| - 1]) {
      TrimEndSpec(s[..|s| - 1], isSpace);
      var r := TrimEnd(s, isSpace);
      assert s[|r|..] == s[..|s| - 1][|r|..] + [s[|s| - 1]];
    }
  }

  function TrimBy(s: string, isSpace: char -> bool): string {
    TrimEnd(TrimStart(s, isSpace), isSpace)
  }

  /** `s.trim()`. */
  function Trim(s: string): (r: string)
    ensures |r| <= |s|
  {
    TrimBy(s, IsTrimmed)
  }

  /** Trimming keeps a contiguous slice of `s`: it starts where TrimStart
      stopped dropping characters. */
  lemma TrimIsSlice(s: string, isSpace: char -> bool)
    ensures var a := |s| - |TrimStart(s, isSpace)|; var r := TrimBy(s, isSpace);
      a + |r| <= |s| && r == s[a..a + |r|]
  {
    var t := TrimStart(s, isSpace);
    TrimStartSpec(s, isSpace);
    TrimEndSpec(t, isSpace);
  }

  /** Everything trimming drops, on either side of that slice, is white space. */
  lemma TrimDropsOnlySpace(s: string, isSpace: char -> bool)
    ensures var a := |s| - |TrimStart(s, isSpace)|; var r := TrimBy(s, isSpace);
      a + |r| <= |s| && AllSpace(s[..a], isSpace) && AllSpace(s[a + |r|..], isSpace)
  {
    var t := TrimStart(s, isSpace);
    var r := TrimBy(s, isSpace);
    var a := |s| - |t|;
    TrimStartSpec(s, isSpace);
    TrimEndSpec(t, isSpace);
    assert s[a + |r|..] == t[|r|..];
  }

  /** What trimming keeps neither starts nor ends with white space. */
  lemma TrimKeepsNoOuterSpace(s: string, isSpace: char -> bool)
    ensures var r := TrimBy(s, isSpace);
      r != [] ==> !isSpace(r[0]) && !isSpace(r[|r| - 1])
  {
    var t := TrimStart(s, isSpace);
    var r := TrimBy(s, isSpace);
    TrimStartSpec(s, isSpace);
    TrimEndSpec(t, isSpace);
    if r != [] {
      assert r[0] == t[0];
    }
  }

  /** Trimming yields the empty string exactly when every character is white
      space (the empty input included). */
  lemma TrimEmptyIffAllSpace(s: string, isSpace: char -> bool)
    ensures TrimBy(s, isSpace) == "" <==> AllSpace(s, isSpace)
  {
    var a := |s| - |TrimStart(s, isSpace)|;
    var r := TrimBy(s, isSpace);
    if r == "" {
      TrimDropsOnlySpace(s, isSpace);
      forall i | 0 <= i < |s| ensures isSpace(s[i]) {
        if i < a {
          assert s[i] == s[..a][i];
        } else {
          assert s[i] == s[a..][i - a];
        }
      }
    } else {
      TrimIsSlice(s, isSpace);
      TrimKeepsNoOuterSpace(s, isSpace);
      assert r[0] == s[a];
    }
  }

  /** `input.trim() === ''` holds exactly when every character of the input is
      ECMAScript white space or a line terminator. */
  lemma TrimEmptyIffBlank(s: string)
    ensures Trim(s) == "" <==> forall i :: 0 <= i < |s| ==> s[i] in TrimmedChars
  {
    TrimEmptyIffAllSpace(s, IsTrimmed);
  }
}

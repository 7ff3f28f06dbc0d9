/** `String.prototype.trim`: strips the ECMAScript WhiteSpace and
    LineTerminator code points from both ends. The facts about the
    functions are lemmas, so that callers pay for them only when they ask. */
module JsString {

  predicate IsWhiteSpace(c: char) {
    || c == '\t' || c == '\U{B}' || c == '\U{C}' || c == ' ' || c == '\U{A0}' || c == '\U{FEFF}'
    || c == '\U{1680}' || ('\U{2000}' <= c <= '\U{200A}') || c == '\U{202F}' || c == '\U{205F}'
    || c == '\U{3000}'
    || c == '\n' || c == '\r' || c == '\U{2028}' || c == '\U{2029}'
  }

  predicate AllWhiteSpace(s: string) {
    forall i :: 0 <= i < |s| ==> IsWhiteSpace(s[i])
  }

  /** A trimmed string: empty, or neither end is white space. */
  predicate Trimmed(s: string) {
    s == [] || (!IsWhiteSpace(s[0]) && !IsWhiteSpace(s[|s| - 1]))
  }

  /** Drops leading white space. */
  function TrimStart(s: string): (r: string)
    ensures |r| <= |s|
  {
    if s != [] && IsWhiteSpace(s[0]) then TrimStart(s[1..]) else s
  }

  /** Drops trailing white space. */
  function TrimEnd(s: string): (r: string)
    ensures |r| <= |s|
  {
    if s != [] && IsWhiteSpace(s[|s| - 1]) then TrimEnd(s[..|s| - 1]) else s
  }

  /** `s.trim()` */
  function Trim(s: string): (r: string)
    ensures |r| <= |s|
  {
    TrimEnd(TrimStart(s))
  }

  /** `!s.trim()`: nothing but white space. */
  predicate IsBlank(s: string) {
    Trim(s) == ""
  }

  /** TrimStart leaves the suffix after the leading white space. */
  lemma {:induction false} TrimStartSpec(s: string)
    ensures var r := TrimStart(s);
            && r == s[|s| - |r|..]
            && AllWhiteSpace(s[..|s| - |r|])
            && (r == [] || !IsWhiteSpace(r[0]))
  {
    if s != [] && IsWhiteSpace(s[0]) {
      TrimStartSpec(s[1..]);
      var r := TrimStart(s);
      forall i | 0 <= i < |s| - |r| ensures IsWhiteSpace(s[i]) {
        if i > 0 { assert s[i] == s[1..][..|s[1..]| - |r|][i - 1]; }
      }
    }
  }

  /** TrimEnd leaves the prefix before the trailing white space. */
  lemma {:induction false} TrimEndSpec(s: string)
    ensures var r := TrimEnd(s);
            && r == s[..|r|]
            && AllWhiteSpace(s[|r|..])
            && (r == [] || !IsWhiteSpace(r[|r| - 1]))
  {
    if s != [] && IsWhiteSpace(s[|s| - 1]) {
      var shorter := s[..|s| - 1];
      TrimEndSpec(shorter);
      var r := TrimEnd(s);
      forall i | |r| <= i < |s| ensures IsWhiteSpace(s[i]) {
        if i < |s| - 1 { assert s[i] == shorter[|r|..][i - |r|]; }
      }
    }
  }

  /** The result of trim is trimmed and is a contiguous piece of the input. */
  lemma TrimSpec(s: string)
    ensures Trimmed(Trim(s))
    ensures var k := |s| - |TrimStart(s)|; k + |Trim(s)| <= |s| && Trim(s) == s[k..k + |Trim(s)|]
  {
    var t := TrimStart(s);
    TrimStartSpec(s);
    TrimEndSpec(t);
    var r := TrimEnd(t);
    assert r != [] ==> r[0] == t[0];
    var k := |s| - |t|;
    assert r == s[k..k + |r|];
  }

  /** Trim is fixed by its two defining facts: for any split of `s` into
      white space, a trimmed middle and white space, it returns the middle. */
  lemma {:induction false} TrimIsMiddle(front: string, middle: string, back: string)
    requires AllWhiteSpace(front) && AllWhiteSpace(back) && Trimmed(middle)
    ensures Trim(front + middle + back) == middle
  {
    if middle == [] {
      assert front + middle + back == (front + back) + [];
      TrimStartDropsFront(front + back, []);
    } else {
      assert front + middle + back == front + (middle + back);
      TrimStartDropsFront(front, middle + back);
      TrimEndDropsBack(middle, back);
    }
  }

  lemma {:induction false} TrimStartDropsFront(front: string, rest: string)
    requires AllWhiteSpace(front)
    requires rest == [] || !IsWhiteSpace(rest[0])
    ensures TrimStart(front + rest) == rest
  {
    if front != [] {
      assert (front + rest)[1..] == front[1..] + rest;
      TrimStartDropsFront(front[1..], rest);
    } else {
      assert front + rest == rest;
    }
  }

  lemma {:induction false} TrimEndDropsBack(rest: string, back: string)
    requires AllWhiteSpace(back)
    requires rest == [] || !IsWhiteSpace(rest[|rest| - 1])
    ensures TrimEnd(rest + back) == rest
  {
    if back != [] {
      var shorter := back[..|back| - 1];
      assert (rest + back)[..|rest + back| - 1] == rest + shorter;
      TrimEndDropsBack(rest, shorter);
    } else {
      assert rest + back == rest;
    }
  }

  /** Trimming twice is trimming once. */
  lemma TrimIdempotent(s: string)
    ensures Trim(Trim(s)) == Trim(s)
  {
    var r := Trim(s);
    TrimSpec(s);
    assert [] + r + [] == r;
    TrimIsMiddle([], r, []);
  }

  /** A string is blank exactly when every character is white space. */
  lemma BlankIffAllWhiteSpace(s: string)
    ensures IsBlank(s) <==> AllWhiteSpace(s)
  {
    if AllWhiteSpace(s) {
      assert s + [] + [] == s;
      TrimIsMiddle(s, [], []);
    }
    if IsBlank(s) {
      var t := TrimStart(s);
      TrimStartSpec(s);
      TrimEndSpec(t);
      assert t[0..] == t;
      assert t == [];
      assert s[..|s| - |t|] == s;
    }
  }
}

/**
 * The few pieces of Python's string library the core relies on:
 * `str.strip()`, `file.readlines()` on a text file, and the `\w` class of `re`.
 */
module Text {

  /** Python's `str.isspace()` for one character: the ASCII separators plus the Unicode spaces. */
  predicate IsSpace(c: char)
  {
    var v := c as int;
    v == 0x20 || (0x09 <= v <= 0x0D) || (0x1C <= v <= 0x1F) || v == 0x85 || v == 0xA0 ||
    v == 0x1680 || (0x2000 <= v <= 0x200A) || v == 0x2028 || v == 0x2029 || v == 0x202F ||
    v == 0x205F || v == 0x3000
  }

  /** `\w` restricted to ASCII: a letter, a digit or the underscore. */
  predicate IsWordChar(c: char)
  {
    ('a' <= c <= 'z') || ('A' <= c <= 'Z') || ('0' <= c <= '9') || c == '_'
  }

  predicate NoSpace(s: string)
  {
    forall i :: 0 <= i < |s| ==> !IsSpace(s[i])
  }

  /** Drops leading whitespace. */
  function TrimStart(s: string): (r: string)
    ensures |r| <= |s|
  {
    if s != [] && IsSpace(s[0]) then TrimStart(s[1..]) else s
  }

  /** Drops trailing whitespace. */
  function TrimEnd(s: string): (r: string)
    ensures |r| <= |s|
  {
    if s != [] && IsSpace(s[|s| - 1]) then TrimEnd(s[..|s| - 1]) else s
  }

  /** `str.strip()` with no argument. */
  function Strip(s: string): (r: string)
    ensures |r| <= |s|
  {
    TrimEnd(TrimStart(s))
  }

  /** `TrimStart` removes a prefix made only of whitespace and stops at the first other character. */
  lemma {:induction false} TrimStartSpec(s: string)
    ensures TrimStart(s) == s[|s| - |TrimStart(s)|..]
    ensures TrimStart(s) == [] || !IsSpace(TrimStart(s)[0])
    ensures forall i :: 0 <= i < |s| - |TrimStart(s)| ==> IsSpace(s[i])
  {
    if s != [] && IsSpace(s[0]) {
      TrimStartSpec(s[1..]);
    }
  }

  /** `TrimEnd` removes a suffix made only of whitespace and stops at the last other character. */
  lemma {:induction false} TrimEndSpec(s: string)
    ensures TrimEnd(s) == s[..|TrimEnd(s)|]
    ensures TrimEnd(s) == [] || !IsSpace(TrimEnd(s)[|TrimEnd(s)| - 1])
    ensures forall i :: |TrimEnd(s)| <= i < |s| ==> IsSpace(s[i])
  {
    if s != [] && IsSpace(s[|s| - 1]) {
      TrimEndSpec(s[..|s| - 1]);
    }
  }

  /**
   * `Strip(s)` is the part of `s` between a whitespace prefix and a whitespace suffix, and it
   * neither starts nor ends with whitespace.
   */
  lemma StripSpec(s: string)
    ensures exists i, j ::
              0 <= i <= j <= |s| && Strip(s) == s[i..j] &&
              (forall k :: 0 <= k < i ==> IsSpace(s[k])) && (forall k :: j <= k < |s| ==> IsSpace(s[k]))
    ensures Strip(s) == [] || (!IsSpace(Strip(s)[0]) && !IsSpace(Strip(s)[|Strip(s)| - 1]))
  {
    var t := TrimStart(s);
    TrimStartSpec(s);
    TrimEndSpec(t);
    var i := |s| - |t|;
    var r := TrimEnd(t);
    assert r == s[i..i + |r|];
    forall k | i + |r| <= k < |s|
      ensures IsSpace(s[k])
    {
      assert s[k] == t[k - i];
    }
    if r != [] {
      assert r[0] == t[0];
    }
    assert 0 <= i <= i + |r| <= |s| && Strip(s) == s[i..i + |r|];
  }

  /** A string with no whitespace at all is its own strip. */
  lemma StripNoSpace(s: string)
    requires NoSpace(s)
    ensures Strip(s) == s
  {
    TrimStartSpec(s);
    assert TrimStart(s) == s;
    TrimEndSpec(s);
    assert TrimEnd(s) == s;
  }

  /** Stripping twice is stripping once. */
  lemma StripIdempotent(s: string)
    ensures Strip(Strip(s)) == Strip(s)
  {
    StripSpec(s);
    var r := Strip(s);
    if r != [] {
      TrimStartSpec(r);
      assert TrimStart(r) == r;
      TrimEndSpec(r);
      assert TrimEnd(r) == r;
    }
  }

  /** Index of the first '\n' at or after `i`, or |s| when there is none. */
  function NewlineFrom(s: string, i: nat): (k: nat)
    requires i <= |s|
    ensures i <= k <= |s|
    ensures forall j :: i <= j < k ==> s[j] != '\n'
    ensures k < |s| ==> s[k] == '\n'
    decreases |s| - i
  {
    if i == |s| || s[i] == '\n' then i else NewlineFrom(s, i + 1)
  }

  /** Concatenation of a sequence of strings. */
  function Concat(ls: seq<string>): string
  {
    if ls == [] then [] else ls[0] + Concat(ls[1..])
  }

  /**
   * `readlines()` on a text file holding `s`: the text is cut after every '\n', each piece keeps
   * its '\n', and a final piece without one is kept when it is not empty.
   */
  function Lines(s: string): (ls: seq<string>)
    ensures Concat(ls) == s
    ensures forall k :: 0 <= k < |ls| ==> ls[k] != []
    ensures forall k :: 0 <= k < |ls| - 1 ==> ls[k][|ls[k]| - 1] == '\n'
    ensures forall k, j :: 0 <= k < |ls| && 0 <= j < |ls[k]| - 1 ==> ls[k][j] != '\n'
    decreases |s|
  {
    if s == [] then []
    else
      var k := NewlineFrom(s, 0);
      if k == |s| then [s]
      else
        var rest := Lines(s[k + 1..]);
        assert s == s[..k + 1] + s[k + 1..];
        [s[..k + 1]] + rest
  }

  /** Text made of `a`, a line break and `b`, neither holding a line break, reads back as lines `a + "\n"` and `b` (when `b` is not empty). */
  lemma LinesOfTwo(a: string, b: string)
    requires forall i :: 0 <= i < |a| ==> a[i] != '\n'
    requires forall i :: 0 <= i < |b| ==> b[i] != '\n'
    ensures Lines(a + "\n" + b) == if b == [] then [a + "\n"] else [a + "\n", b]
  {
    LinesAfterFirst(a, b);
    if b != [] {
      NewlineFirst(b, 0, |b|);
    }
  }

  /** The first line of `a + "\n" + rest`, when `a` holds no line break, is `a + "\n"`. */
  lemma LinesAfterFirst(a: string, rest: string)
    requires forall i :: 0 <= i < |a| ==> a[i] != '\n'
    ensures Lines(a + "\n" + rest) == [a + "\n"] + Lines(rest)
  {
    var s := a + "\n" + rest;
    forall j | 0 <= j < |a|
      ensures s[j] != '\n'
    {
      assert s[j] == a[j];
    }
    NewlineFirst(s, 0, |a|);
    assert s[..|a| + 1] == a + "\n";
    assert s[|a| + 1..] == rest;
  }

  /** `NewlineFrom` finds `k` when no '\n' lies before it and one lies at it (or it is the end). */
  lemma {:induction false} NewlineFirst(s: string, i: nat, k: nat)
    requires i <= k <= |s|
    requires forall j :: i <= j < k ==> s[j] != '\n'
    requires k < |s| ==> s[k] == '\n'
    ensures NewlineFrom(s, i) == k
    decreases k - i
  {
    if i < k {
      NewlineFirst(s, i + 1, k);
    }
  }
}

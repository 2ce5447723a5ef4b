/**
 * The string primitives both halves of the pipeline rely on: JavaScript's
 * `String.prototype.trim`, `Array.prototype.join` and the ASCII part of
 * `toLowerCase`.
 */
module Text {

  /** ECMAScript WhiteSpace and LineTerminator code points: the set `trim` strips and `\s` matches. */
  predicate IsSpace(c: char) {
    || c == '\t' || c == '\n' || c == '\U{B}' || c == '\U{C}' || c == '\r' || c == ' '
    || c == '\U{A0}' || c == '\U{1680}' || ('\U{2000}' <= c <= '\U{200A}')
    || c == '\U{2028}' || c == '\U{2029}' || c == '\U{202F}' || c == '\U{205F}'
    || c == '\U{3000}' || c == '\U{FEFF}'
  }

  predicate AllSpace(s: string) {
    forall i | 0 <= i < |s| :: IsSpace(s[i])
  }

  /** Neither starts nor ends with whitespace: what `trim` leaves behind. */
  predicate IsTrimmed(s: string) {
    s == [] || (!IsSpace(s[0]) && !IsSpace(s[|s| - 1]))
  }

  /** Drops the leading whitespace; `TrimStartSuffix` and `TrimStartDropsSpace` say what remains. */
  function TrimStart(s: string): (r: string)
    ensures |r| <= |s|
    ensures r == [] || !IsSpace(r[0])
  {
    if s != [] && IsSpace(s[0]) then TrimStart(s[1..]) else s
  }

  /** What `TrimStart` leaves is a suffix of its input. */
  lemma {:induction false} TrimStartSuffix(s: string)
    ensures TrimStart(s) == s[|s| - |TrimStart(s)|..]
    decreases |s|
  {
    if s != [] && IsSpace(s[0]) {
      TrimStartSuffix(s[1..]);
    }
  }

  lemma {:induction false} TrimStartDropsSpace(s: string)
    ensures AllSpace(s[..|s| - |TrimStart(s)|])
    decreases |s|
  {
    if s != [] && IsSpace(s[0]) {
      TrimStartDropsSpace(s[1..]);
      var n := |s| - |TrimStart(s)|;
      assert s[..n] == [s[0]] + s[1..][..n - 1];
    }
  }

  /** Drops the trailing whitespace; `TrimEndPrefix` and `TrimEndDropsSpace` say what remains. */
  function TrimEnd(s: string): (r: string)
    ensures |r| <= |s|
    ensures r == [] || !IsSpace(r[|r| - 1])
  {
    if s != [] && IsSpace(s[|s| - 1]) then TrimEnd(s[..|s| - 1]) else s
  }

  /** What `TrimEnd` leaves is a prefix of its input. */
  lemma {:induction false} TrimEndPrefix(s: string)
    ensures TrimEnd(s) == s[..|TrimEnd(s)|]
    decreases |s|
  {
    if s != [] && IsSpace(s[|s| - 1]) {
      TrimEndPrefix(s[..|s| - 1]);
    }
  }

  lemma {:induction false} TrimEndDropsSpace(s: string)
    ensures AllSpace(s[|TrimEnd(s)|..])
    decreases |s|
  {
    if s != [] && IsSpace(s[|s| - 1]) {
      var shorter := s[..|s| - 1];
      TrimEndDropsSpace(shorter);
      var n := |TrimEnd(s)|;
      assert s[n..] == shorter[n..] + [s[|s| - 1]];
    }
  }

  /**
   * JavaScript `s.trim()`. The result is trimmed; `TrimFrame` shows that `s`
   * is the result framed by whitespace, and `TrimOfFramed` that these two
   * facts determine the result.
   */
  function Trim(s: string): (r: string)
    ensures IsTrimmed(r)
  {
    TrimEndPrefix(TrimStart(s));
    TrimEnd(TrimStart(s))
  }

  lemma TrimFrame(s: string)
    ensures var k, r := Leading(s), Trim(s);
            k + |r| <= |s| && s[k..k + |r|] == r && AllSpace(s[..k]) && AllSpace(s[k + |r|..])
  {
    var a := TrimStart(s);
    var r := TrimEnd(a);
    var k := |s| - |a|;
    TrimStartDropsSpace(s);
    TrimEndDropsSpace(a);
    TrimStartSuffix(s);
    TrimEndPrefix(a);
    assert s[k..k + |r|] == r;
    assert s[k + |r|..] == a[|r|..];
  }

  /** How many whitespace characters `trim` removes from the front of `s`. */
  function Leading(s: string): nat {
    |s| - |TrimStart(s)|
  }

  /** A string is blank when trimming leaves nothing (`!s.trim()` in the source). */
  predicate IsBlank(s: string) {
    Trim(s) == []
  }

  lemma {:induction false} TrimStartOfFramed(pre: string, t: string)
    requires AllSpace(pre)
    requires t == [] || !IsSpace(t[0])
    ensures TrimStart(pre + t) == t
    decreases |pre|
  {
    if pre != [] {
      assert (pre + t)[1..] == pre[1..] + t;
      TrimStartOfFramed(pre[1..], t);
    } else {
      assert pre + t == t;
    }
  }

  lemma {:induction false} TrimEndOfFramed(t: string, post: string)
    requires AllSpace(post)
    requires t == [] || !IsSpace(t[|t| - 1])
    ensures TrimEnd(t + post) == t
    decreases |post|
  {
    if post != [] {
      var shorter := post[..|post| - 1];
      assert (t + post)[..|t + post| - 1] == t + shorter;
      TrimEndOfFramed(t, shorter);
    } else {
      assert t + post == t;
    }
  }

  /** Trimming a trimmed string framed by whitespace gives that string back. */
  lemma TrimOfFramed(pre: string, t: string, post: string)
    requires AllSpace(pre) && AllSpace(post) && IsTrimmed(t)
    ensures Trim(pre + t + post) == t
  {
    if t == [] {
      assert pre + t + post == pre + post;
      assert AllSpace(pre + post);
      TrimStartOfFramed(pre + post, []);
      assert pre + post + [] == pre + post;
      assert TrimStart(pre + post) == [];
    } else {
      assert pre + t + post == pre + (t + post);
      TrimStartOfFramed(pre, t + post);
      TrimEndOfFramed(t, post);
    }
  }

  /** `trim` is idempotent. */
  lemma TrimIdempotent(s: string)
    ensures Trim(Trim(s)) == Trim(s)
  {
    var t := Trim(s);
    assert [] + t + [] == t;
    TrimOfFramed([], t, []);
  }

  /** A trimmed string is its own trim. */
  lemma TrimOfTrimmed(t: string)
    requires IsTrimmed(t)
    ensures Trim(t) == t
  {
    assert [] + t + [] == t;
    TrimOfFramed([], t, []);
  }

  /** Blank means whitespace only. */
  lemma BlankIffAllSpace(s: string)
    ensures IsBlank(s) <==> AllSpace(s)
  {
    if AllSpace(s) {
      assert s + [] + [] == s;
      TrimOfFramed(s, [], []);
    }
    if IsBlank(s) {
      var a := TrimStart(s);
      TrimStartDropsSpace(s);
      TrimEndDropsSpace(a);
      assert a[|TrimEnd(a)|..] == a;
      assert s[..|s|] == s;
    }
  }

  /** Every character of the trimmed string occurs in the original. */
  lemma TrimChars(s: string, c: char)
    requires c in Trim(s)
    ensures c in s
  {
    var r := Trim(s);
    var k := Leading(s);
    TrimFrame(s);
    var j :| 0 <= j < |r| && r[j] == c;
    assert s[k + j] == c;
  }

  /** `parts.join(sep)`. */
  function Join(parts: seq<string>, sep: string): string
    decreases |parts|
  {
    if |parts| == 0 then ""
    else if |parts| == 1 then parts[0]
    else parts[0] + sep + Join(parts[1..], sep)
  }

  /** Joining two non-empty lists is joining each and putting a separator between. */
  lemma {:induction false} JoinAppend(a: seq<string>, b: seq<string>, sep: string)
    requires a != [] && b != []
    ensures Join(a + b, sep) == Join(a, sep) + sep + Join(b, sep)
    decreases |a|
  {
    if |a| == 1 {
      assert (a + b)[1..] == b;
    } else {
      JoinAppend(a[1..], b, sep);
      assert (a + b)[1..] == a[1..] + b;
    }
  }

  /** Part `k` and what follows it: the part, then a separator before any later parts. */
  lemma JoinFrom(parts: seq<string>, sep: string, k: nat)
    requires k < |parts|
    ensures Join(parts[k..], sep) == parts[k] + (if k == |parts| - 1 then "" else sep + Join(parts[k + 1..], sep))
  {
    var rest := parts[k + 1..];
    assert parts[k..] == [parts[k]] + rest;
    if rest != [] {
      JoinAppend([parts[k]], rest, sep);
    } else {
      assert parts[k] + "" == parts[k];
    }
  }

  /**
   * Part `k` stands in the joined string exactly where it belongs: after the
   * parts before it and a separator, before a separator and the parts after it.
   */
  lemma JoinAt(parts: seq<string>, sep: string, k: nat)
    requires k < |parts|
    ensures Join(parts, sep)
         == (if k == 0 then "" else Join(parts[..k], sep) + sep) + parts[k]
          + (if k == |parts| - 1 then "" else sep + Join(parts[k + 1..], sep))
  {
    JoinFrom(parts, sep, k);
    var tail := Join(parts[k..], sep);
    if k == 0 {
      assert parts[k..] == parts;
      assert "" + tail == tail;
    } else {
      assert parts == parts[..k] + parts[k..];
      JoinAppend(parts[..k], parts[k..], sep);
    }
  }

  /** With an empty separator, part `k` sits between the parts before and after it. */
  lemma ConcatAt(parts: seq<string>, k: nat)
    requires k < |parts|
    ensures Join(parts, "") == Join(parts[..k], "") + parts[k] + Join(parts[k + 1..], "")
  {
    JoinAt(parts, "", k);
    var before, after := Join(parts[..k], ""), Join(parts[k + 1..], "");
    if k == 0 {
      assert before == "";
    } else {
      assert before + "" == before;
    }
    if k == |parts| - 1 {
      assert parts[k + 1..] == [];
      assert after == "";
      assert parts[k] + "" == parts[k];
    } else {
      assert "" + after == after;
    }
  }

  /** ASCII upper-case letters become lower-case; every other character is kept. */
  function LowerChar(c: char): char {
    if 'A' <= c <= 'Z' then (c as int + 32) as char else c
  }

  /** `toLowerCase`, restricted to the ASCII letters. */
  function ToLower(s: string): string {
    seq(|s|, i requires 0 <= i < |s| => LowerChar(s[i]))
  }
}

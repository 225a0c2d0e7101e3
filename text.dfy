/**
  The few pieces of Python's `str` API the script relies on: counting a
  character, `replace` with a one-character pattern, `join`, `startswith`
  and the decimal rendering of an integer.
*/
module Text {

  /** Number of occurrences of `c` in `s`. */
  function Count(s: string, c: char): (n: nat)
    ensures n <= |s|
    ensures n == 0 <==> c !in s
  {
    if s == [] then 0
    else
      assert s == [s[0]] + s[1..];
      (if s[0] == c then 1 else 0) + Count(s[1..], c)
  }

  lemma {:induction false} CountConcat(a: string, b: string, c: char)
    ensures Count(a + b, c) == Count(a, c) + Count(b, c)
  {
    if a == [] {
      assert a + b == b;
    } else {
      assert (a + b)[0] == a[0];
      assert (a + b)[1..] == a[1..] + b;
      CountConcat(a[1..], b, c);
    }
  }

  /** `s.replace(c, rep)` for a pattern that is the single character `c`. */
  function Replace(s: string, c: char, rep: string): string
  {
    if s == [] then []
    else (if s[0] == c then rep else [s[0]]) + Replace(s[1..], c, rep)
  }

  /** Each occurrence of `c` grows the text by `|rep| - 1` characters. */
  lemma {:induction false} ReplaceLength(s: string, c: char, rep: string)
    ensures |Replace(s, c, rep)| == |s| + Count(s, c) * (|rep| - 1)
  {
    if s != [] {
      ReplaceLength(s[1..], c, rep);
      var k := |rep| - 1;
      var m := Count(s[1..], c);
      if s[0] == c {
        assert (m + 1) * k == m * k + k;
      }
    }
  }

  /** Replacing a character by one character is a pointwise map. */
  lemma {:induction false} ReplaceOneChar(s: string, c: char, d: char)
    ensures |Replace(s, c, [d])| == |s|
    ensures forall i :: 0 <= i < |s| ==> Replace(s, c, [d])[i] == (if s[i] == c then d else s[i])
  {
    if s != [] {
      ReplaceOneChar(s[1..], c, d);
      var r := Replace(s, c, [d]);
      var tail := Replace(s[1..], c, [d]);
      assert r == [if s[0] == c then d else s[0]] + tail;
      forall i | 0 < i < |s|
        ensures r[i] == (if s[i] == c then d else s[i])
      {
        assert r[i] == tail[i - 1];
        assert s[i] == s[1..][i - 1];
      }
    }
  }

  /** `sep.join(parts)`. */
  function Join(sep: string, parts: seq<string>): string
  {
    if |parts| == 0 then ""
    else if |parts| == 1 then parts[0]
    else parts[0] + sep + Join(sep, parts[1..])
  }

  /** The index in `Join(sep, parts)` at which `parts[i]` begins. */
  function JoinOffset(sep: string, parts: seq<string>, i: nat): nat
    requires i <= |parts|
  {
    if i == 0 then 0 else JoinOffset(sep, parts, i - 1) + |parts[i - 1]| + |sep|
  }

  lemma {:induction false} JoinOffsetTail(sep: string, parts: seq<string>, i: nat)
    requires 1 <= i <= |parts|
    ensures JoinOffset(sep, parts, i) == |parts[0]| + |sep| + JoinOffset(sep, parts[1..], i - 1)
  {
    if i > 1 {
      JoinOffsetTail(sep, parts, i - 1);
      assert parts[1..][i - 2] == parts[i - 1];
    }
  }

  /** `s[|x| + a..|x| + b]` of `x + s` is `s[a..b]`. */
  lemma SliceAfterPrefix(x: string, s: string, a: nat, b: nat)
    requires a <= b <= |s|
    ensures (x + s)[|x| + a..|x| + b] == s[a..b]
  {
    assert forall t :: 0 <= t < b - a ==> (x + s)[|x| + a..|x| + b][t] == s[a..b][t];
  }

  /** With two parts or more, the first part and then `sep` open the joined text. */
  lemma JoinAtFirst(sep: string, parts: seq<string>)
    requires 2 <= |parts|
    ensures |parts[0]| + |sep| <= |Join(sep, parts)|
    ensures Join(sep, parts)[..|parts[0]|] == parts[0]
    ensures Join(sep, parts)[|parts[0]|..|parts[0]| + |sep|] == sep
  {
    var j := Join(sep, parts);
    assert j == (parts[0] + sep) + Join(sep, parts[1..]);
    assert j[..|parts[0]|] == parts[0];
    assert j[|parts[0]|..|parts[0]| + |sep|] == sep;
  }

  /** Past the first part and `sep`, the joined text is the join of the other parts. */
  lemma JoinShift(sep: string, parts: seq<string>, a: nat, b: nat)
    requires 2 <= |parts|
    requires a <= b <= |Join(sep, parts[1..])|
    ensures |Join(sep, parts)| == |parts[0]| + |sep| + |Join(sep, parts[1..])|
    ensures Join(sep, parts)[|parts[0]| + |sep| + a..|parts[0]| + |sep| + b] == Join(sep, parts[1..])[a..b]
  {
    assert Join(sep, parts) == (parts[0] + sep) + Join(sep, parts[1..]);
    SliceAfterPrefix(parts[0] + sep, Join(sep, parts[1..]), a, b);
  }

  /** `s[a..b]` of `s` framed by `x` and `y` is found shifted by `|x|`. */
  lemma SliceInside(x: string, s: string, y: string, a: nat, b: nat)
    requires a <= b <= |s|
    ensures (x + s + y)[|x| + a..|x| + b] == s[a..b]
  {
    assert x + s + y == x + (s + y);
    SliceAfterPrefix(x, s + y, a, b);
    assert (s + y)[a..b] == s[a..b];
  }

  /**
    The joined text holds the parts, in order: `parts[i]` sits at
    `JoinOffset(sep, parts, i)`, and the text ends with the last part.
  */
  lemma {:induction false} JoinPartAt(sep: string, parts: seq<string>, i: nat)
    requires i < |parts|
    ensures JoinOffset(sep, parts, i) + |parts[i]| <= |Join(sep, parts)|
    ensures Join(sep, parts)[JoinOffset(sep, parts, i)..JoinOffset(sep, parts, i) + |parts[i]|] == parts[i]
    ensures i + 1 == |parts| ==> |Join(sep, parts)| == JoinOffset(sep, parts, i) + |parts[i]|
  {
    if |parts| == 1 {
      assert Join(sep, parts) == parts[0];
    } else if i == 0 {
      JoinAtFirst(sep, parts);
    } else {
      JoinPartAt(sep, parts[1..], i - 1);
      JoinOffsetTail(sep, parts, i);
      var o := JoinOffset(sep, parts[1..], i - 1);
      assert parts[1..][i - 1] == parts[i];
      JoinShift(sep, parts, o, o + |parts[i]|);
    }
  }

  /**
    Between neighbouring parts the joined text holds exactly `sep`: from the
    end of `parts[i]` up to where `parts[i + 1]` begins.
  */
  lemma {:induction false} JoinSepAt(sep: string, parts: seq<string>, i: nat)
    requires i + 1 < |parts|
    ensures JoinOffset(sep, parts, i + 1) <= |Join(sep, parts)|
    ensures Join(sep, parts)[JoinOffset(sep, parts, i) + |parts[i]|..JoinOffset(sep, parts, i + 1)] == sep
  {
    if i == 0 {
      JoinAtFirst(sep, parts);
    } else {
      JoinSepAt(sep, parts[1..], i - 1);
      JoinOffsetTail(sep, parts, i);
      JoinOffsetTail(sep, parts, i + 1);
      var o := JoinOffset(sep, parts[1..], i - 1);
      assert parts[1..][i - 1] == parts[i];
      JoinShift(sep, parts, o + |parts[i]|, JoinOffset(sep, parts[1..], i));
    }
  }

  /**
    Framed by `x` and `y`, the joined text keeps its layout shifted by `|x|`:
    `parts[k]` sits at `|x| + JoinOffset(sep, parts, k)`.
  */
  lemma FramedPartAt(x: string, sep: string, parts: seq<string>, y: string, k: nat)
    requires k < |parts|
    ensures var t, o := x + Join(sep, parts) + y, |x| + JoinOffset(sep, parts, k);
            o + |parts[k]| <= |t| && t[o..o + |parts[k]|] == parts[k]
  {
    var o := JoinOffset(sep, parts, k);
    JoinPartAt(sep, parts, k);
    SliceInside(x, Join(sep, parts), y, o, o + |parts[k]|);
  }

  /** `x + j + y` opens with `x` and closes with `y`. */
  lemma FramedEnds(x: string, j: string, y: string)
    ensures StartsWith(x + j + y, x)
    ensures (x + j + y)[|x| + |j|..] == y
  {
    assert (x + j + y)[..|x|] == x;
  }

  /** Framed by `x` and `y`, exactly `sep` still lies between neighbouring parts. */
  lemma FramedSepAt(x: string, sep: string, parts: seq<string>, y: string, k: nat)
    requires k + 1 < |parts|
    ensures var t := x + Join(sep, parts) + y;
            var o, next := |x| + JoinOffset(sep, parts, k) + |parts[k]|, |x| + JoinOffset(sep, parts, k + 1);
            o <= next <= |t| && t[o..next] == sep
  {
    JoinPartAt(sep, parts, k);
    JoinSepAt(sep, parts, k);
    SliceInside(x, Join(sep, parts), y, JoinOffset(sep, parts, k) + |parts[k]|, JoinOffset(sep, parts, k + 1));
  }

  /** A join of texts free of `c` with a separator free of `c` is free of `c`. */
  lemma {:induction false} CountJoinNone(sep: string, parts: seq<string>, c: char)
    requires Count(sep, c) == 0
    requires forall k :: 0 <= k < |parts| ==> Count(parts[k], c) == 0
    ensures Count(Join(sep, parts), c) == 0
  {
    if |parts| >= 2 {
      CountJoinNone(sep, parts[1..], c);
      CountConcat(parts[0], sep, c);
      CountConcat(parts[0] + sep, Join(sep, parts[1..]), c);
    }
  }

  /** `s.startswith(prefix)`. */
  predicate StartsWith(s: string, prefix: string)
  {
    |prefix| <= |s| && s[..|prefix|] == prefix
  }

  /** `str(n)` for a non-negative integer. */
  function NatToDecimal(n: nat): (r: string)
    ensures |r| >= 1
    ensures forall i :: 0 <= i < |r| ==> '0' <= r[i] <= '9'
  {
    if n < 10 then ["0123456789"[n]]
    else NatToDecimal(n / 10) + ["0123456789"[n % 10]]
  }

  /** `str(n)` for any integer. */
  function IntToDecimal(n: int): (r: string)
    ensures |r| >= 1
    ensures forall i :: 0 <= i < |r| ==> r[i] == '-' || '0' <= r[i] <= '9'
  {
    if n < 0 then "-" + NatToDecimal(-n) else NatToDecimal(n)
  }
}

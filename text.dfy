/**
 * The string operations the metrics reader and the ingester rely on: Python's
 * `str.strip()`, iteration over the lines of a text file, and `sep.join(parts)`.
 */
module Text {

  /** Python's `str.isspace()` on one character (the Unicode whitespace set). */
  predicate IsSpace(c: char)
  {
    var n := c as int;
    (9 <= n <= 13) || (28 <= n <= 32) || n == 0x85 || n == 0xA0 || n == 0x1680 ||
    (0x2000 <= n <= 0x200A) || n == 0x2028 || n == 0x2029 || n == 0x202F ||
    n == 0x205F || n == 0x3000
  }

  predicate AllSpace(s: string)
  {
    forall i :: 0 <= i < |s| ==> IsSpace(s[i])
  }

  /** `s.strip()`: drop leading and trailing whitespace. */
  function Strip(s: string): (r: string)
    ensures r == [] <==> AllSpace(s)
    ensures r == [] || (!IsSpace(r[0]) && !IsSpace(r[|r| - 1]))
    decreases |s|
  {
    if s != [] && IsSpace(s[0]) then
      assert AllSpace(s) <==> AllSpace(s[1..]);
      Strip(s[1..])
    else if s != [] && IsSpace(s[|s| - 1]) then
      assert AllSpace(s) <==> AllSpace(s[..|s| - 1]);
      Strip(s[..|s| - 1])
    else s
  }

  /** s[i..j] with only whitespace before and after it in s */
  ghost predicate TrimOf(s: string, i: int, j: int, r: string)
  {
    0 <= i <= j <= |s| && r == s[i..j] && AllSpace(s[..i]) && AllSpace(s[j..])
  }

  /** What is left is a contiguous piece of s with only whitespace on either side of it. */
  lemma {:induction false} StripIsTrim(s: string)
    ensures exists i, j :: TrimOf(s, i, j, Strip(s))
    decreases |s|
  {
    if s != [] && IsSpace(s[0]) {
      StripIsTrim(s[1..]);
      var i, j :| TrimOf(s[1..], i, j, Strip(s[1..]));
      TrimOfDropFirst(s, i, j, Strip(s[1..]));
      assert Strip(s) == Strip(s[1..]);
      assert TrimOf(s, i + 1, j + 1, Strip(s));
    } else if s != [] && IsSpace(s[|s| - 1]) {
      StripIsTrim(s[..|s| - 1]);
      var i, j :| TrimOf(s[..|s| - 1], i, j, Strip(s[..|s| - 1]));
      TrimOfDropLast(s, i, j, Strip(s[..|s| - 1]));
      assert Strip(s) == Strip(s[..|s| - 1]);
      assert TrimOf(s, i, j, Strip(s));
    } else {
      assert s[..0] == [] && s[|s|..] == [];
      assert TrimOf(s, 0, |s|, Strip(s));
    }
  }

  lemma TrimOfDropFirst(s: string, i: int, j: int, r: string)
    requires s != [] && IsSpace(s[0]) && TrimOf(s[1..], i, j, r)
    ensures TrimOf(s, i + 1, j + 1, r)
  {
    var t := s[1..];
    assert s[..i + 1] == [s[0]] + t[..i];
    AllSpaceConcat([s[0]], t[..i]);
    assert s[j + 1..] == t[j..];
  }

  lemma TrimOfDropLast(s: string, i: int, j: int, r: string)
    requires s != [] && IsSpace(s[|s| - 1]) && TrimOf(s[..|s| - 1], i, j, r)
    ensures TrimOf(s, i, j, r)
  {
    var t := s[..|s| - 1];
    assert s[..i] == t[..i];
    assert s[j..] == t[j..] + [s[|s| - 1]];
    AllSpaceConcat(t[j..], [s[|s| - 1]]);
  }

  lemma AllSpaceConcat(a: string, b: string)
    ensures AllSpace(a + b) <==> AllSpace(a) && AllSpace(b)
  {
    if AllSpace(a) && AllSpace(b) {
      forall k | 0 <= k < |a + b| ensures IsSpace((a + b)[k]) {
        if k >= |a| {
          assert (a + b)[k] == b[k - |a|];
        }
      }
    }
    if AllSpace(a + b) {
      forall k | 0 <= k < |a| ensures IsSpace(a[k]) {
        assert (a + b)[k] == a[k];
      }
      forall k | 0 <= k < |b| ensures IsSpace(b[k]) {
        assert (a + b)[k + |a|] == b[k];
      }
    }
  }

  /** A string that neither starts nor ends with whitespace is its own strip. */
  lemma StripUnchanged(s: string)
    requires s != [] && !IsSpace(s[0]) && !IsSpace(s[|s| - 1])
    ensures Strip(s) == s
  {
  }

  /** Position of the first `c` in `s`, or `|s|` when there is none. */
  function IndexOf(s: string, c: char): (i: nat)
    ensures i <= |s|
    ensures c !in s[..i]
    ensures i < |s| ==> s[i] == c
  {
    if s == [] then 0
    else if s[0] == c then 0
    else 1 + IndexOf(s[1..], c)
  }

  /**
   * The lines a text file yields to `for line in f`, without their '\n'
   * terminators: every '\n' ends a line, and a non-empty tail after the last
   * '\n' is a final line of its own.
   */
  function Lines(s: string): (ls: seq<string>)
    ensures forall k :: 0 <= k < |ls| ==> '\n' !in ls[k]
    decreases |s|
  {
    if s == [] then []
    else
      var i := IndexOf(s, '\n');
      if i == |s| then [s] else [s[..i]] + Lines(s[i + 1..])
  }

  /** The text is empty or ends with a line terminator. */
  predicate Terminated(s: string)
  {
    s == [] || s[|s| - 1] == '\n'
  }

  /** Text after a terminated prefix starts a fresh line. */
  lemma {:induction false} LinesAfterTerminated(s: string, t: string)
    requires Terminated(s)
    ensures Lines(s + t) == Lines(s) + Lines(t)
    decreases |s|
  {
    if s == [] {
      assert s + t == t;
    } else {
      var i := IndexOf(s, '\n');
      assert i < |s|;
      assert (s + t)[..i] == s[..i];
      assert IndexOf(s + t, '\n') == i by {
        IndexOfPrefix(s, t, '\n');
      }
      assert (s + t)[i + 1..] == s[i + 1..] + t;
      LinesAfterTerminated(s[i + 1..], t);
    }
  }

  lemma {:induction false} IndexOfPrefix(s: string, t: string, c: char)
    requires IndexOf(s, c) < |s|
    ensures IndexOf(s + t, c) == IndexOf(s, c)
  {
    if s[0] != c {
      assert (s + t)[1..] == s[1..] + t;
      IndexOfPrefix(s[1..], t, c);
    }
  }

  /** A single newline-free piece, with or without its terminator, is one line. */
  lemma LinesOfOne(d: string)
    requires '\n' !in d
    ensures Lines(d + "\n") == [d]
    ensures d != [] ==> Lines(d) == [d]
  {
    assert IndexOf(d + "\n", '\n') == |d| by {
      IndexOfAbsent(d, "\n", '\n');
    }
    assert (d + "\n")[..|d|] == d;
    assert (d + "\n")[|d| + 1..] == [];
    if d != [] {
      IndexOfAbsent(d, [], '\n');
      assert d + [] == d;
    }
  }

  lemma {:induction false} IndexOfAbsent(s: string, t: string, c: char)
    requires c !in s
    ensures IndexOf(s + t, c) == |s| + IndexOf(t, c)
  {
    if s == [] {
      assert s + t == t;
    } else {
      assert (s + t)[1..] == s[1..] + t;
      IndexOfAbsent(s[1..], t, c);
    }
  }

  /** Appending one terminated, newline-free line to a terminated text adds exactly that line. */
  lemma AppendLine(s: string, d: string)
    requires Terminated(s) && '\n' !in d
    ensures Lines(s + d + "\n") == Lines(s) + [d]
    ensures Terminated(s + d + "\n")
  {
    assert s + d + "\n" == s + (d + "\n");
    LinesAfterTerminated(s, d + "\n");
    LinesOfOne(d);
  }

  /** `sep.join(parts)` */
  function Join(parts: seq<string>, sep: string): (r: string)
    ensures |parts| == 1 ==> r == parts[0]
    ensures parts != [] ==> |parts[|parts| - 1]| <= |r| && r[|r| - |parts[|parts| - 1]|..] == parts[|parts| - 1]
  {
    if |parts| == 0 then []
    else if |parts| == 1 then parts[0]
    else Join(parts[..|parts| - 1], sep) + sep + parts[|parts| - 1]
  }

  predicate NoNewlines(parts: seq<string>)
  {
    forall i :: 0 <= i < |parts| ==> '\n' !in parts[i]
  }

  /** Joining newline-free pieces with "\n", terminating, and reading the lines back gives the pieces. */
  lemma {:induction false} LinesOfJoinTerminated(parts: seq<string>)
    requires parts != [] && NoNewlines(parts)
    ensures Lines(Join(parts, "\n") + "\n") == parts
    ensures Terminated(Join(parts, "\n") + "\n")
    decreases |parts|
  {
    if |parts| == 1 {
      LinesOfOne(parts[0]);
    } else {
      var init, last := parts[..|parts| - 1], parts[|parts| - 1];
      LinesOfJoinTerminated(init);
      AppendLine(Join(init, "\n") + "\n", last);
      assert parts == init + [last];
    }
  }

  /**
   * The same without the final terminator, as long as the last piece is not
   * empty (an empty last piece would leave a trailing '\n' that ends no line).
   */
  lemma {:induction false} LinesOfJoin(parts: seq<string>)
    requires NoNewlines(parts)
    requires parts != [] ==> parts[|parts| - 1] != []
    ensures Lines(Join(parts, "\n")) == parts
  {
    if |parts| == 1 {
      LinesOfOne(parts[0]);
    } else if |parts| > 1 {
      var init, last := parts[..|parts| - 1], parts[|parts| - 1];
      assert parts == init + [last];
      assert NoNewlines(init) && '\n' !in last;
      LinesOfJoinTerminated(init);
      LinesOfJoinStep(Join(init, "\n") + "\n", init, last);
    }
  }

  lemma LinesOfJoinStep(prefix: string, init: seq<string>, last: string)
    requires Terminated(prefix) && Lines(prefix) == init
    requires '\n' !in last && last != []
    ensures Lines(prefix + last) == init + [last]
  {
    LinesAfterTerminated(prefix, last);
    LinesOfOne(last);
  }
}

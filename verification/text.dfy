/** String operations the README generator relies on: Python's suffix test,
    substring test, "\n".join and str.splitlines (on '\n' only), and the
    "first n lines" truncation built from the last two. */
module Text {

  /** Python's `s.endswith(suffix)`: false when the suffix is longer than s. */
  predicate EndsWith(s: string, suffix: string) {
    |suffix| <= |s| && s[|s| - |suffix|..] == suffix
  }

  /** `sub` sits in `s` starting at index k. */
  ghost predicate OccursAt(sub: string, s: string, k: nat) {
    k + |sub| <= |s| && s[k..k + |sub|] == sub
  }

  /** `sub` is a substring of `s`: the meaning of Python's `sub in s`. */
  ghost predicate Occurs(sub: string, s: string) {
    exists k: nat :: OccursAt(sub, s, k)
  }

  /** Once `sub` does not sit at the head of `s`, it occurs in `s` exactly when it occurs in its tail. */
  lemma OccursTail(sub: string, s: string)
    requires |sub| <= |s| && s[..|sub|] != sub
    ensures Occurs(sub, s) <==> Occurs(sub, s[1..])
  {
    if Occurs(sub, s) {
      var k: nat :| OccursAt(sub, s, k);
      assert k != 0;
      assert s[1..][k - 1..k - 1 + |sub|] == s[k..k + |sub|];
      assert OccursAt(sub, s[1..], k - 1);
    }
    if Occurs(sub, s[1..]) {
      var k: nat :| OccursAt(sub, s[1..], k);
      assert s[1..][k..k + |sub|] == s[k + 1..k + 1 + |sub|];
      assert OccursAt(sub, s, k + 1);
    }
  }

  /** Python's `sub in s`, scanning s from the left. */
  function Contains(s: string, sub: string): (r: bool)
    ensures r <==> Occurs(sub, s)
    decreases |s|
  {
    if |sub| > |s| then false
    else if s[..|sub|] == sub then assert OccursAt(sub, s, 0); true
    else OccursTail(sub, s); Contains(s[1..], sub)
  }

  /** Python's `"\n".join(lines)`. */
  function JoinLines(lines: seq<string>): (r: string)
    ensures lines == [] ==> r == ""
    ensures |lines| == 1 ==> r == lines[0]
  {
    if |lines| == 0 then ""
    else if |lines| == 1 then lines[0]
    else lines[0] + "\n" + JoinLines(lines[1..])
  }

  /** The pieces of s between its '\n' characters: never empty, and one more piece than s has newlines. */
  function Split(s: string): (r: seq<string>)
    ensures |r| > 0
    ensures forall i :: 0 <= i < |r| ==> '\n' !in r[i]
  {
    if s == [] then [""]
    else
      var rest := Split(s[1..]);
      if s[0] == '\n' then [""] + rest
      else [[s[0]] + rest[0]] + rest[1..]
  }

  /** Python's `s.splitlines()` restricted to '\n' as the only line break:
      the empty string has no lines, and a final '\n' does not open a new line. */
  function SplitLines(s: string): (r: seq<string>)
    ensures forall i :: 0 <= i < |r| ==> '\n' !in r[i]
    ensures s != [] ==> |r| > 0
  {
    if s == [] then []
    else if s[|s| - 1] == '\n' then Split(s[..|s| - 1])
    else Split(s)
  }

  /** s without its final '\n', if it has one. */
  function DropFinalNewline(s: string): (r: string)
    ensures r <= s && |s| - 1 <= |r|
    ensures r != s <==> s != [] && s[|s| - 1] == '\n'
  {
    if s != [] && s[|s| - 1] == '\n' then s[..|s| - 1] else s
  }

  /** Python's `"\n".join(s.splitlines()[:n])`. */
  function FirstLines(s: string, n: nat): (r: string)
    ensures n == 0 || s == [] ==> r == ""
  {
    var lines := SplitLines(s);
    JoinLines(if |lines| <= n then lines else lines[..n])
  }

  /** A newline splits the text into the lines before it and the lines after it. */
  lemma {:induction false} SplitAppend(a: string, b: string)
    ensures Split(a + "\n" + b) == Split(a) + Split(b)
    decreases |a|
  {
    var s := a + "\n" + b;
    if a == [] {
      assert s[0] == '\n' && s[1..] == b;
    } else {
      assert s[0] == a[0];
      assert s[1..] == a[1..] + "\n" + b;
      SplitAppend(a[1..], b);
    }
  }

  /** A string without a newline is a single piece. */
  lemma {:induction false} SplitSingle(line: string)
    requires '\n' !in line
    ensures Split(line) == [line]
    decreases |line|
  {
    if line != [] {
      assert '\n' !in line[1..] by {
        forall c | c in line[1..] ensures c in line { }
      }
      SplitSingle(line[1..]);
      assert [line[0]] + line[1..] == line;
    }
  }

  /** Joining the pieces of s with "\n" gives s back. */
  lemma {:induction false} JoinSplit(s: string)
    ensures JoinLines(Split(s)) == s
    decreases |s|
  {
    if s != [] {
      var rest := Split(s[1..]);
      JoinSplit(s[1..]);
      if s[0] == '\n' {
        assert ([""] + rest)[1..] == rest;
      } else {
        var pieces := [[s[0]] + rest[0]] + rest[1..];
        if |rest| == 1 {
          assert JoinLines(pieces) == [s[0]] + s[1..];
        } else {
          assert pieces[1..] == rest[1..];
          assert JoinLines(pieces) == [s[0]] + (rest[0] + "\n" + JoinLines(rest[1..]));
        }
      }
    }
  }

  /** Splitting newline-free lines joined with "\n" gives the lines back. */
  lemma {:induction false} SplitJoin(lines: seq<string>)
    requires |lines| > 0
    requires forall i :: 0 <= i < |lines| ==> '\n' !in lines[i]
    ensures Split(JoinLines(lines)) == lines
    decreases |lines|
  {
    SplitSingle(lines[0]);
    if |lines| > 1 {
      SplitJoin(lines[1..]);
      SplitAppend(lines[0], JoinLines(lines[1..]));
    }
  }

  /** The lines of a non-empty text are its pieces, less the empty piece after a final newline. */
  lemma SplitLinesOfSplit(s: string)
    requires s != []
    ensures Split(s) == SplitLines(s) + (if s[|s| - 1] == '\n' then [""] else [])
  {
    if s[|s| - 1] == '\n' {
      var body := s[..|s| - 1];
      assert body + "\n" + "" == s;
      SplitAppend(body, "");
    }
  }

  /** Round trip: newline-free lines, the last one non-empty, joined with "\n" and split again. */
  lemma SplitLinesJoin(lines: seq<string>)
    requires forall i :: 0 <= i < |lines| ==> '\n' !in lines[i]
    requires lines != [] ==> lines[|lines| - 1] != ""
    ensures SplitLines(JoinLines(lines)) == lines
    ensures !EndsWith(JoinLines(lines), "\n")
  {
    if lines != [] {
      SplitJoin(lines);
      var t := JoinLines(lines);
      if t != [] {
        SplitLinesOfSplit(t);
        assert t[|t| - 1..] == [t[|t| - 1]];
      }
    }
  }

  /** Text ending in a newline contributes its lines ahead of whatever follows it. */
  lemma SplitLinesAppend(x: string, y: string)
    requires x == [] || x[|x| - 1] == '\n'
    ensures SplitLines(x + y) == SplitLines(x) + SplitLines(y)
  {
    if x != [] && y != [] {
      var x' := x[..|x| - 1];
      assert x + y == x' + "\n" + y;
      if y[|y| - 1] == '\n' {
        var y' := y[..|y| - 1];
        assert (x + y)[..|x + y| - 1] == x' + "\n" + y';
        SplitAppend(x', y');
      } else {
        SplitAppend(x', y);
      }
    } else if x == [] {
      assert x + y == y;
    } else {
      assert x + y == x;
    }
  }

  /** Joining the first k lines gives a prefix of joining them all. */
  lemma {:induction false} JoinPrefix(lines: seq<string>, k: nat)
    requires k <= |lines|
    ensures JoinLines(lines[..k]) <= JoinLines(lines)
    decreases |lines|
  {
    if k == |lines| {
      assert lines[..k] == lines;
    } else if k == 1 {
      assert lines[..k] == [lines[0]];
    } else if k > 1 {
      JoinPrefix(lines[1..], k - 1);
      assert lines[..k][1..] == lines[1..][..k - 1];
      var p, q := JoinLines(lines[1..][..k - 1]), JoinLines(lines[1..]);
      assert q[..|p|] == p;
      assert (lines[0] + "\n" + q)[..|lines[0] + "\n" + p|] == lines[0] + "\n" + p;
    }
  }

  /** The truncated text has at most n lines, and they open the lines of s. When s has
      at least n lines, the pieces of the truncated text are exactly the first n lines of s. */
  lemma FirstLinesLines(s: string, n: nat)
    ensures |SplitLines(FirstLines(s, n))| <= n
    ensures SplitLines(FirstLines(s, n)) <= SplitLines(s)
    ensures 0 < n <= |SplitLines(s)| ==> Split(FirstLines(s, n)) == SplitLines(s)[..n]
  {
    var lines := SplitLines(s);
    var kept := if |lines| <= n then lines else lines[..n];
    var t := FirstLines(s, n);
    if kept != [] {
      SplitJoin(kept);
      if t != [] {
        SplitLinesOfSplit(t);
        assert SplitLines(t) <= kept;
      }
    }
  }

  /** The truncated text is a prefix of s; it is s less a final newline when s has at most n lines. */
  lemma FirstLinesPrefix(s: string, n: nat)
    ensures FirstLines(s, n) <= s
    ensures |SplitLines(s)| <= n ==> FirstLines(s, n) == DropFinalNewline(s)
  {
    if s != [] {
      var body := DropFinalNewline(s);
      var lines := SplitLines(s);
      assert lines == Split(body);
      JoinSplit(body);
      var k := if |lines| <= n then |lines| else n;
      assert lines[..k] == if |lines| <= n then lines else lines[..n];
      JoinPrefix(lines, k);
    }
  }
}

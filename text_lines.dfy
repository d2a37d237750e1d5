/**
 * `content.split('\n')` and its inverse `join('\n')` as JavaScript defines them
 * for a one-character separator: the empty string splits into one empty
 * segment, and every newline starts a new segment.
 */
module TextLines {

  const Newline: char := '\n'

  /** The segments of `s` between newlines. */
  function Split(s: string): (segments: seq<string>)
    ensures |segments| >= 1
    decreases |s|
  {
    if s == [] then [""]
    else
      var rest := Split(s[1..]);
      if s[0] == Newline then [""] + rest
      else [[s[0]] + rest[0]] + rest[1..]
  }

  /** The segments glued back with a newline between each two of them. */
  function Join(segments: seq<string>): (s: string)
    decreases |segments|
  {
    if |segments| == 0 then ""
    else if |segments| == 1 then segments[0]
    else segments[0] + [Newline] + Join(segments[1..])
  }

  function NewlineCount(s: string): nat
    decreases |s|
  {
    if s == [] then 0 else (if s[0] == Newline then 1 else 0) + NewlineCount(s[1..])
  }

  predicate NoNewline(segment: string) { Newline !in segment }

  /** Joining a segment list that starts with `[c] + x` prepends `c`. */
  lemma {:induction false} JoinConsChar(c: char, segments: seq<string>)
    requires |segments| >= 1
    ensures Join([[c] + segments[0]] + segments[1..]) == [c] + Join(segments)
  {
    var t := [[c] + segments[0]] + segments[1..];
    assert t[1..] == segments[1..];
    if |segments| > 1 {
      assert Join(t) == ([c] + segments[0]) + [Newline] + Join(segments[1..]);
    }
  }

  /** Rejoining the segments with newlines gives back the content. */
  lemma {:induction false} JoinSplit(s: string)
    ensures Join(Split(s)) == s
    decreases |s|
  {
    if s != [] {
      var rest := Split(s[1..]);
      JoinSplit(s[1..]);
      if s[0] == Newline {
        assert ([""] + rest)[1..] == rest;
        assert Join([""] + rest) == "" + [Newline] + Join(rest);
        assert s == [s[0]] + s[1..];
      } else {
        JoinConsChar(s[0], rest);
        assert s == [s[0]] + s[1..];
      }
    }
  }

  /** There is one segment more than there are newlines, and no segment holds a newline. */
  lemma {:induction false} SplitShape(s: string)
    ensures |Split(s)| == NewlineCount(s) + 1
    ensures forall i :: 0 <= i < |Split(s)| ==> NoNewline(Split(s)[i])
    decreases |s|
  {
    if s != [] {
      SplitShape(s[1..]);
      var rest := Split(s[1..]);
      if s[0] != Newline {
        assert NoNewline(rest[0]);
        assert NoNewline([s[0]] + rest[0]);
        var r := Split(s);
        assert forall i :: 1 <= i < |r| ==> r[i] == rest[i];
      }
    }
  }

  /** Splitting `x + y` when `x` has no newline: `x` is glued to the first segment of `y`. */
  lemma {:induction false} SplitPrefix(x: string, y: string)
    requires NoNewline(x)
    ensures Split(x + y) == [x + Split(y)[0]] + Split(y)[1..]
    decreases |x|
  {
    if x == [] {
      assert x + y == y;
      assert x + Split(y)[0] == Split(y)[0];
      assert [Split(y)[0]] + Split(y)[1..] == Split(y);
    } else {
      assert (x + y)[1..] == x[1..] + y;
      assert (x + y)[0] == x[0];
      SplitPrefix(x[1..], y);
      assert [x[0]] + (x[1..] + Split(y)[0]) == x + Split(y)[0];
    }
  }

  /** Splitting a join of newline-free segments gives back the segments. */
  lemma {:induction false} SplitJoin(segments: seq<string>)
    requires |segments| >= 1
    requires forall i :: 0 <= i < |segments| ==> NoNewline(segments[i])
    ensures Split(Join(segments)) == segments
    decreases |segments|
  {
    if |segments| == 1 {
      SplitPrefix(segments[0], "");
      assert segments[0] + "" == segments[0];
    } else {
      var tail := segments[1..];
      SplitJoin(tail);
      var y := [Newline] + Join(tail);
      assert Join(segments) == segments[0] + y;
      SplitPrefix(segments[0], y);
      assert y[1..] == Join(tail);
      assert Split(y) == [""] + tail;
      assert segments[0] + "" == segments[0];
      assert segments == [segments[0]] + tail;
    }
  }
}

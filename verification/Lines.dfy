/** Newline-terminated lines in a byte stream. */
module Lines {
  import opened Bytes

  ghost predicate OneLine(s: Text) {
    NEWLINE !in s
  }

  ghost predicate AllOneLine(ls: seq<Text>) {
    forall i :: 0 <= i < |ls| ==> OneLine(ls[i])
  }

  /** The bytes of the lines, each followed by a newline. */
  function Stream(ls: seq<Text>): Text {
    if ls == [] then [] else ls[0] + [NEWLINE] + Stream(ls[1..])
  }

  /** The position of the first newline, or the length. */
  function LineEnd(s: Text): (k: nat)
    ensures k <= |s| && OneLine(s[..k])
    ensures k < |s| <==> NEWLINE in s
    ensures k < |s| ==> s[k] == NEWLINE
  {
    if s == [] || s[0] == NEWLINE then 0 else 1 + LineEnd(s[1..])
  }

  /** The terminated lines of a stream. */
  function Terminated(s: Text): (r: seq<Text>)
    ensures AllOneLine(r)
  {
    var k := LineEnd(s);
    if k == |s| then [] else [s[..k]] + Terminated(s[k + 1..])
  }

  /** What follows the last newline. */
  function Unterminated(s: Text): (r: Text)
    ensures OneLine(r)
  {
    var k := LineEnd(s);
    if k == |s| then s else Unterminated(s[k + 1..])
  }

  lemma {:induction false} StreamAppend(a: seq<Text>, b: seq<Text>)
    ensures Stream(a + b) == Stream(a) + Stream(b)
  {
    if a == [] {
      assert a + b == b;
    } else {
      assert (a + b)[1..] == a[1..] + b;
      StreamAppend(a[1..], b);
    }
  }

  lemma StreamOne(l: Text)
    ensures Stream([l]) == l + [NEWLINE]
  {
    assert [l][1..] == [];
  }

  lemma {:induction false} LineEndOf(l: Text, rest: Text)
    requires OneLine(l)
    ensures LineEnd(l + [NEWLINE] + rest) == |l|
  {
    var s := l + [NEWLINE] + rest;
    if l != [] {
      assert s[0] == l[0];
      assert s[1..] == l[1..] + [NEWLINE] + rest;
      LineEndOf(l[1..], rest);
    }
  }

  lemma FirstLine(l: Text, rest: Text)
    requires OneLine(l)
    ensures Terminated(l + [NEWLINE] + rest) == [l] + Terminated(rest)
    ensures Unterminated(l + [NEWLINE] + rest) == Unterminated(rest)
  {
    hide LineEnd;
    var s := l + [NEWLINE] + rest;
    LineEndOf(l, rest);
    assert s[..|l|] == l && s[|l| + 1..] == rest;
  }

  /** A stream splits in one way only: its lines are the terminated ones, the rest is unterminated. */
  lemma {:induction false} SplitUnique(ls: seq<Text>, rest: Text)
    requires AllOneLine(ls)
    ensures Terminated(Stream(ls) + rest) == ls + Terminated(rest)
    ensures Unterminated(Stream(ls) + rest) == Unterminated(rest)
  {
    hide Terminated, Unterminated;
    if ls == [] {
      assert Stream(ls) + rest == rest;
      assert ls + Terminated(rest) == Terminated(rest);
    } else {
      var tail := Stream(ls[1..]) + rest;
      assert Stream(ls) + rest == ls[0] + [NEWLINE] + tail;
      FirstLine(ls[0], tail);
      SplitUnique(ls[1..], rest);
      assert ls == [ls[0]] + ls[1..];
    }
  }

  lemma SplitLast(rest: Text)
    requires OneLine(rest)
    ensures Terminated(rest) == [] && Unterminated(rest) == rest
  {
  }

  /** Splitting loses nothing. */
  lemma {:induction false} SplitJoins(s: Text)
    ensures Stream(Terminated(s)) + Unterminated(s) == s
  {
    hide LineEnd;
    var k := LineEnd(s);
    if k < |s| {
      var l, rest := s[..k], s[k + 1..];
      var a, b, c := l + [NEWLINE], Stream(Terminated(rest)), Unterminated(rest);
      SplitJoins(rest);
      StreamAppend([l], Terminated(rest));
      StreamOne(l);
      assert Stream(Terminated(s)) == a + b && Unterminated(s) == c;
      assert (a + b) + c == a + (b + c);
      assert s == a + rest;
    } else {
      assert Stream([]) + s == s;
    }
  }

  lemma {:induction false} SameLineEnd(p: Text, s: Text)
    requires p <= s && NEWLINE in p
    ensures LineEnd(p) == LineEnd(s)
  {
    if p[0] != NEWLINE {
      assert p == [p[0]] + p[1..];
      SameLineEnd(p[1..], s[1..]);
    }
  }

  /** The terminated lines of a prefix of a stream of lines are a prefix of the lines. */
  lemma {:induction false} PrefixOfLines(received: Text, ls: seq<Text>)
    requires AllOneLine(ls) && received <= Stream(ls)
    ensures Terminated(received) <= ls
  {
    hide LineEnd;
    var k := LineEnd(received);
    if k < |received| {
      var tail := Stream(ls[1..]);
      assert Stream(ls) == ls[0] + [NEWLINE] + tail;
      LineEndOf(ls[0], tail);
      SameLineEnd(received, Stream(ls));
      assert received[k + 1..] <= tail;
      PrefixOfLines(received[k + 1..], ls[1..]);
      assert received[..k] == Stream(ls)[..k] == ls[0];
    }
  }
}

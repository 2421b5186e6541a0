/**
 * Splitting a string on the single space character, as JavaScript's
 * `String.prototype.split(" ")` does, together with its inverse
 * `Array.prototype.join(" ")`.
 */
module SpaceSplit {

  import opened Wrappers

  const Space: char := ' '

  /**
   * The pieces of `s` between single space characters. There is always at
   * least one piece; consecutive spaces, and a space at either end, give
   * empty pieces; no piece contains a space.
   */
  function Split(s: string): (pieces: seq<string>)
    ensures |pieces| >= 1
    ensures forall i :: 0 <= i < |pieces| ==> Space !in pieces[i]
    decreases |s|
  {
    if s == [] then [""]
    else
      var rest := Split(s[1..]);
      if s[0] == Space then [""] + rest
      else [[s[0]] + rest[0]] + rest[1..]
  }

  /** The pieces glued back together with one space between neighbours. */
  function Join(pieces: seq<string>): string
    decreases |pieces|
  {
    if |pieces| == 0 then ""
    else if |pieces| == 1 then pieces[0]
    else pieces[0] + [Space] + Join(pieces[1..])
  }

  /** Joining the pieces of a split gives back the original string. */
  lemma {:induction false} JoinSplit(s: string)
    ensures Join(Split(s)) == s
    decreases |s|
  {
    if s != [] {
      var rest := Split(s[1..]);
      JoinSplit(s[1..]);
      if s[0] == Space {
        assert Split(s) == [""] + rest;
        assert (([""] + rest)[1..]) == rest;
        assert Join(Split(s)) == "" + [Space] + Join(rest);
        assert s == [s[0]] + s[1..];
      } else {
        var head := [s[0]] + rest[0];
        assert Split(s) == [head] + rest[1..];
        if |rest| == 1 {
          assert Join(Split(s)) == head;
          assert s == [s[0]] + s[1..];
        } else {
          assert ([head] + rest[1..])[1..] == rest[1..];
          assert Join(Split(s)) == head + [Space] + Join(rest[1..]);
          assert Join(rest) == rest[0] + [Space] + Join(rest[1..]);
          assert s == [s[0]] + s[1..];
        }
      }
    }
  }

  /**
   * A string holds no space exactly when it splits into one piece, and that
   * piece is then the string itself.
   */
  lemma {:induction false} SplitWithoutSpace(s: string)
    ensures Space !in s <==> |Split(s)| == 1
    ensures Space !in s ==> Split(s) == [s]
    decreases |s|
  {
    if s != [] {
      SplitWithoutSpace(s[1..]);
      if Space !in s {
        assert Space !in s[1..];
        assert s == [s[0]] + s[1..];
      }
    }
    if |Split(s)| == 1 {
      JoinSplit(s);
    }
  }

  /**
   * Splitting at the first space: when `a` holds no space, the pieces of
   * `a + " " + b` are `a` followed by the pieces of `b`.
   */
  lemma {:induction false} SplitAtFirstSpace(a: string, b: string)
    requires Space !in a
    ensures Split(a + [Space] + b) == [a] + Split(b)
    decreases |a|
  {
    var s := a + [Space] + b;
    if a == [] {
      assert s[1..] == b;
    } else {
      assert s[1..] == a[1..] + [Space] + b;
      SplitAtFirstSpace(a[1..], b);
      assert [s[0]] + a[1..] == a;
    }
  }

  /** Splitting a join of space-free pieces gives back those pieces. */
  lemma {:induction false} SplitJoin(pieces: seq<string>)
    requires |pieces| >= 1
    requires forall i :: 0 <= i < |pieces| ==> Space !in pieces[i]
    ensures Split(Join(pieces)) == pieces
    decreases |pieces|
  {
    if |pieces| == 1 {
      SplitWithoutSpace(pieces[0]);
    } else {
      SplitJoin(pieces[1..]);
      SplitAtFirstSpace(pieces[0], Join(pieces[1..]));
      assert [pieces[0]] + pieces[1..] == pieces;
    }
  }

  /**
   * The cut of a string at its first space, as a reference for the first
   * piece of a split: `None` when there is no space, otherwise the part
   * before the first space and the part after it.
   */
  function CutAtFirstSpace(s: string): (r: Option<(string, string)>)
    ensures r.None? <==> Space !in s
    ensures r.Some? ==> Space !in r.value.0 && s == r.value.0 + [Space] + r.value.1
    decreases |s|
  {
    if s == [] then None
    else if s[0] == Space then Some(("", s[1..]))
    else
      match CutAtFirstSpace(s[1..])
      case None => None
      case Some((before, after)) => Some(([s[0]] + before, after))
  }
}

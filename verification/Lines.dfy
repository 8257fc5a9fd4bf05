/** Splitting a text at line breaks, all at once: the specification the streaming listener refines. */
module Lines {
  import opened Prelude
  import opened Strings

  predicate IsBreak(c: char) { c == '\n' || c == '\r' }

  predicate BreakFree(s: string) { forall c | c in s :: !IsBreak(c) }

  /** All pieces of `t` between line breaks; the last one is not terminated by a break. */
  function Split(t: string): (pieces: seq<string>)
    ensures |pieces| >= 1
  {
    if t == [] then [[]]
    else
      var (pieces, c) := (Split(t[..|t| - 1]), t[|t| - 1]);
      if IsBreak(c) then pieces + [[]]
      else pieces[..|pieces| - 1] + [pieces[|pieces| - 1] + [c]]
  }

  /** The pieces that a break terminates. */
  function Closed(t: string): seq<string> { Split(t)[..|Split(t)| - 1] }

  /** What follows the last break. */
  function Open(t: string): string { Split(t)[|Split(t)| - 1] }

  /** The pieces worth logging. */
  function NonBlank(pieces: seq<string>): seq<string> {
    if pieces == [] then []
    else
      var (front, last) := (NonBlank(pieces[..|pieces| - 1]), pieces[|pieces| - 1]);
      if IsBlank(last) then front else front + [last]
  }

  lemma {:induction false} SplitIsClosedOpen(t: string)
    ensures Split(t) == Closed(t) + [Open(t)]
  {
  }

  lemma {:induction false} SplitSnoc(t: string, c: char)
    ensures Closed(t + [c]) == if IsBreak(c) then Split(t) else Closed(t)
    ensures Open(t + [c]) == if IsBreak(c) then [] else Open(t) + [c]
  {
    assert (t + [c])[..|t|] == t;
  }

  lemma {:induction false} OpenBreakFree(t: string)
    ensures BreakFree(Open(t))
    ensures forall p | p in Closed(t) :: BreakFree(p)
  {
    if t != [] {
      var front, c := t[..|t| - 1], t[|t| - 1];
      assert t == front + [c];
      OpenBreakFree(front);
      SplitSnoc(front, c);
      SplitIsClosedOpen(front);
    }
  }

  lemma {:induction false} SplitBreakFree(t: string)
    requires BreakFree(t)
    ensures Split(t) == [t]
  {
    if t != [] {
      var front, c := t[..|t| - 1], t[|t| - 1];
      assert t == front + [c];
      SplitBreakFree(front);
      SplitSnoc(front, c);
      SplitIsClosedOpen(t);
    }
  }

  lemma SplitContinuesSnoc(s: string, front: string, c: char)
    requires Closed(s + front) == Closed(s) + Closed(Open(s) + front)
    requires Open(s + front) == Open(Open(s) + front)
    ensures Closed(s + front + [c]) == Closed(s) + Closed(Open(s) + front + [c])
    ensures Open(s + front + [c]) == Open(Open(s) + front + [c])
  {
    SplitSnoc(s + front, c);
    SplitSnoc(Open(s) + front, c);
    if IsBreak(c) {
      var o := Open(s + front);
      SplitIsClosedOpen(s + front);
      SplitIsClosedOpen(Open(s) + front);
      Associative(Closed(s), Closed(Open(s) + front), [o]);
    }
  }

  /** Splitting in two goes: the open piece of the first part is put in front of the second part. */
  lemma {:induction false} SplitContinues(s: string, t: string)
    ensures Closed(s + t) == Closed(s) + Closed(Open(s) + t)
    ensures Open(s + t) == Open(Open(s) + t)
    decreases |t|
  {
    if t == [] {
      OpenBreakFree(s);
      SplitBreakFree(Open(s));
      assert s + t == s && Open(s) + t == Open(s);
    } else {
      var front, c := t[..|t| - 1], t[|t| - 1];
      SplitContinues(s, front);
      assert s + t == (s + front) + [c] && Open(s) + t == (Open(s) + front) + [c];
      SplitContinuesSnoc(s, front, c);
    }
  }

  lemma {:induction false} NonBlankSnoc(pieces: seq<string>, p: string)
    ensures NonBlank(pieces + [p]) == if IsBlank(p) then NonBlank(pieces) else NonBlank(pieces) + [p]
  {
    assert (pieces + [p])[..|pieces|] == pieces;
  }

  lemma {:induction false} NonBlankAppend(a: seq<string>, b: seq<string>)
    ensures NonBlank(a + b) == NonBlank(a) + NonBlank(b)
    decreases |b|
  {
    if b == [] {
      assert a + b == a;
    } else {
      var front, p := b[..|b| - 1], b[|b| - 1];
      NonBlankAppend(a, front);
      assert a + b == (a + front) + [p];
      NonBlankSnoc(a + front, p);
    }
  }

  // --- An independent reading of Split ---

  /** Writes the pieces one after the other, each closed by its own break; `tail` stays open. */
  function Join(pieces: seq<string>, breaks: string, tail: string): string
    requires |pieces| == |breaks|
  {
    if pieces == [] then tail else pieces[0] + [breaks[0]] + Join(pieces[1..], breaks[1..], tail)
  }

  lemma SplitFirst(p: string, b: char, t: string)
    requires BreakFree(p) && IsBreak(b)
    ensures Closed(p + [b] + t) == [p] + Closed(t) && Open(p + [b] + t) == Open(t)
  {
    SplitBreakFree(p);
    SplitSnoc(p, b);
    SplitContinues(p + [b], t);
    assert [] + t == t;
  }

  /** `Split` inverts every way of writing break-free pieces with breaks between them. */
  lemma {:induction false} SplitJoin(pieces: seq<string>, breaks: string, tail: string)
    requires |pieces| == |breaks| && BreakFree(tail)
    requires forall p | p in pieces :: BreakFree(p)
    requires forall c | c in breaks :: IsBreak(c)
    ensures Closed(Join(pieces, breaks, tail)) == pieces && Open(Join(pieces, breaks, tail)) == tail
  {
    if pieces == [] {
      SplitBreakFree(tail);
    } else {
      SplitFirst(pieces[0], breaks[0], Join(pieces[1..], breaks[1..], tail));
      SplitJoin(pieces[1..], breaks[1..], tail);
      assert [pieces[0]] + pieces[1..] == pieces;
    }
  }
}

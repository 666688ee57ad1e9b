/** The client's per-channel continuity tracker: it sees message seqs in whatever
    order, with duplicates, and knows the contiguous frontier and the holes. */
module SeqTracker {
  import opened Common

  // ── what an arrival history means ────────────────────────────────────────

  /** Every seq from the first seen up to `s` has arrived. */
  ghost predicate Contiguous(arrivals: seq<int>, s: int)
    requires arrivals != []
  {
    arrivals[0] <= s && forall x :: arrivals[0] <= x <= s ==> x in arrivals
  }

  /** `f` is contiguous and `f + 1` is still open. */
  ghost predicate IsFrontier(arrivals: seq<int>, f: int)
    requires arrivals != []
  {
    Contiguous(arrivals, f) && f + 1 !in arrivals
  }

  ghost predicate IsLargest(arrivals: seq<int>, m: int) {
    m in arrivals && forall x :: x in arrivals ==> x <= m
  }

  /** Seqs between the first seen and `m` that never arrived. */
  ghost function Missing(arrivals: seq<int>, m: int): set<int>
    requires arrivals != []
  {
    set x | arrivals[0] <= x <= m && x !in arrivals
  }

  /** The frontier is the largest contiguous seq. */
  lemma FrontierIsLargestContiguous(arrivals: seq<int>, f: int, s: int)
    requires arrivals != [] && IsFrontier(arrivals, f)
    ensures Contiguous(arrivals, s) <==> arrivals[0] <= s <= f
  {
    assert f + 1 !in arrivals;
  }

  lemma FrontierIsUnique(arrivals: seq<int>, f: int, g: int)
    requires arrivals != [] && IsFrontier(arrivals, f) && IsFrontier(arrivals, g)
    ensures f == g
  {
    FrontierIsLargestContiguous(arrivals, f, g);
    FrontierIsLargestContiguous(arrivals, g, f);
  }

  /** Order and repetition do not matter: the first arrival and the set of arrivals
      determine the frontier and the holes. */
  lemma OrderDoesNotMatter(a: seq<int>, b: seq<int>, f: int, g: int, m: int, n: int)
    requires a != [] && b != [] && a[0] == b[0] && (forall x :: x in a <==> x in b)
    requires IsFrontier(a, f) && IsFrontier(b, g) && IsLargest(a, m) && IsLargest(b, n)
    ensures f == g && m == n && Missing(a, m) == Missing(b, n)
  {
    assert IsFrontier(a, g);
    FrontierIsUnique(a, f, g);
  }

  /** The integers in (lo, hi]. */
  ghost function Interval(lo: int, hi: int): (r: set<int>)
    requires lo <= hi
    ensures |r| == hi - lo
    ensures forall x :: x in r <==> lo < x <= hi
    decreases hi - lo
  {
    if lo == hi then {} else Interval(lo, hi - 1) + {hi}
  }

  class Tracker {
    /** Highest seq with no hole below it; None before the first message. */
    var frontier: Option<int>
    /** Seqs received above a hole. */
    var pending: set<int>
    ghost var arrivals: seq<int>

    ghost predicate Valid()
      reads this
    {
      && (frontier.None? <==> arrivals == [])
      && (frontier.None? ==> pending == {})
      && (frontier.Some? ==>
            && IsFrontier(arrivals, frontier.value)
            && pending == set x | x in arrivals && x > frontier.value)
    }

    constructor ()
      ensures Valid() && arrivals == []
    {
      frontier, pending, arrivals := None, {}, [];
    }

    method Observe(s: int)
      requires Valid()
      modifies this
      ensures Valid() && arrivals == old(arrivals) + [s]
    {
      arrivals := arrivals + [s];
      match frontier
      case None => frontier := Some(s);
      case Some(f) =>
        if s <= f {
          assert pending == set x | x in arrivals && x > f;
        } else if s == f + 1 {
          var nf := s;
          while nf + 1 in pending
            invariant arrivals == old(arrivals) + [s]
            invariant f + 1 <= nf && Contiguous(arrivals, nf)
            invariant pending == set x | x in arrivals && x > nf
            decreases pending
          {
            pending := pending - {nf + 1};
            nf := nf + 1;
          }
          frontier := Some(nf);
        } else {
          pending := pending + {s};
        }
    }

    /** `pending.iter().next_back()`, or `f` when nothing is pending. */
    method LargestPending(f: int) returns (m: int)
      requires forall x :: x in pending ==> x > f
      ensures if pending == {} then m == f else m in pending && forall x :: x in pending ==> x <= m
    {
      m := f;
      var todo := pending;
      while todo != {}
        invariant todo <= pending
        invariant (m == f && todo == pending) || m in pending
        invariant forall x :: x in pending && x !in todo ==> x <= m
        decreases |todo|
      {
        EmptyIfNoMember(todo);
        var x :| x in todo;
        if x > m {
          m := x;
        }
        todo := todo - {x};
      }
    }

    /** The number of holes; the subtraction never goes below zero. */
    method Gaps() returns (gaps: nat)
      requires Valid()
      ensures arrivals == [] ==> gaps == 0
      ensures arrivals != [] ==> exists m :: IsLargest(arrivals, m) && gaps == |Missing(arrivals, m)|
    {
      match frontier
      case None => return 0;
      case Some(f) =>
        var m := LargestPending(f);
        ghost var span := Interval(f, m);
        assert f in arrivals;
        assert IsLargest(arrivals, m) by {
          forall x | x in arrivals ensures x <= m {
            assert x > f ==> x in pending;
          }
        }
        assert Missing(arrivals, m) == span - pending;
        assert pending <= span;
        SizeOfDifference(span, pending);
        return (m - f) - |pending|;
    }
  }

  lemma SizeOfDifference(a: set<int>, b: set<int>)
    requires b <= a
    ensures |a - b| == |a| - |b|
  {
    assert a == (a - b) + b;
  }

  // ── resume ───────────────────────────────────────────────────────────────

  /** A client at frontier `f` that then receives, in any order and mixed with anything
      else, every seq of the gap up to `last`, ends with its frontier at or past
      `last` and no hole at or below it. */
  lemma ResumeClosesTheGap(before: seq<int>, f: int, more: seq<int>, last: int, g: int)
    requires before != [] && IsFrontier(before, f) && IsFrontier(before + more, g)
    requires forall x :: f < x <= last ==> x in more
    ensures g >= last
    ensures forall x :: before[0] <= x <= last ==> x in before + more
  {
    var all := before + more;
    assert all[0] == before[0];
    forall x | before[0] <= x <= last ensures x in all {
      if x <= f {
        assert x in before;
      }
    }
    if f < last {
      FrontierIsLargestContiguous(all, g, last);
    } else {
      assert Contiguous(all, f);
      FrontierIsLargestContiguous(all, g, f);
    }
  }

  /** The watermark a client resumes from: its frontier, or 0 before the first message. */
  ghost predicate ResumesFrom(before: seq<int>, f: int) {
    if before == [] then f == 0 else IsFrontier(before, f)
  }
  /** The first seq of its stream such a client can expect. */
  function FirstOf(before: seq<int>): int { if before == [] then 1 else before[0] }

  /** A client that saw nothing before resumes from 0: whatever arrives first, nothing
      between that and `last` is missing. */
  lemma FirstResumeClosesTheGap(more: seq<int>, last: int, g: int)
    requires more != [] && IsFrontier(more, g)
    requires forall x :: 0 < x <= last ==> x in more
    requires forall x :: x in more ==> x > 0
    ensures g >= last
    ensures forall x :: more[0] <= x <= last ==> x in more
  {
    assert more[0] in more;
    if more[0] <= last {
      assert Contiguous(more, last);
      FrontierIsLargestContiguous(more, g, last);
    }
  }

  /** Both kinds of client: with every seq above the watermark up to `last` received, none
      of the stream up to there is missing and the frontier is past it. */
  lemma ResumeCatchesUp(before: seq<int>, f: int, more: seq<int>, last: int, g: int)
    requires ResumesFrom(before, f)
    requires forall x :: f < x <= last ==> x in more
    requires forall x :: x in more ==> x > 0
    ensures forall x :: FirstOf(before) <= x <= last ==> x in before + more
    ensures before + more != [] && IsFrontier(before + more, g) ==> g >= last
  {
    if before + more != [] && IsFrontier(before + more, g) {
      if before == [] {
        assert before + more == more;
        FirstResumeClosesTheGap(more, last, g);
      } else {
        ResumeClosesTheGap(before, f, more, last, g);
      }
    }
    forall x | FirstOf(before) <= x <= last ensures x in before + more {
      assert before != [] && x <= f ==> x in before;
    }
  }
}

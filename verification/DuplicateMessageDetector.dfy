/** Duplicate detection by gaps: a short sorted list of half-open intervals stands for the
    set of message numbers that have not been seen yet.
 */
module DuplicateMessageDetectors {
  import opened Options
  import opened MessageRefs

  /** A pair of numbers in lexicographic order. The constructor Infinite is (Infinity, Infinity). */
  datatype NumberPair = Pair(a: int, b: int) | Infinite {
    function CompareTo(other: NumberPair): int {
      match (this, other)
      case (Infinite, Infinite) => 0
      case (Infinite, Pair(_, _)) => 1
      case (Pair(_, _), Infinite) => -1
      case (Pair(x, y), Pair(u, w)) =>
        if x > u then 1 else if x < u then -1 else if y > w then 1 else if y < w then -1 else 0
    }

    predicate GreaterThan(other: NumberPair) {
      CompareTo(other) == 1
    }

    predicate EqualTo(other: NumberPair) {
      CompareTo(other) == 0
    }

    predicate GreaterThanOrEqual(other: NumberPair) {
      GreaterThan(other) || EqualTo(other)
    }
  }

  /** The numbers above lower, up to and including upper. */
  datatype Gap = Gap(lower: NumberPair, upper: NumberPair) {
    predicate Contains(x: NumberPair) {
      x.GreaterThan(lower) && upper.GreaterThanOrEqual(x)
    }
  }

  datatype Verdict = New | Duplicate | InvalidNumbering | GapMismatch

  /** What one delivered message tells the detector. */
  datatype Numbering = Numbering(previous: Option<NumberPair>, number: NumberPair) {
    predicate Finite() {
      number.Pair? && (previous.Some? ==> previous.value.Pair?)
    }

    predicate Invalid() {
      previous.Some? && previous.value.GreaterThanOrEqual(number)
    }

    /** The stretch of numbers that the message claims for itself. */
    function Stretch(): Gap
      requires previous.Some?
    {
      Gap(previous.value, number)
    }
  }

  // ---------- what the gap list stands for ----------

  ghost predicate Unseen(gaps: seq<Gap>, x: NumberPair) {
    exists i :: 0 <= i < |gaps| && gaps[i].Contains(x)
  }

  /** Ascending, non-empty, strictly separated gaps, the last one unbounded. */
  ghost predicate Sorted(gaps: seq<Gap>) {
    && (forall i :: 0 <= i < |gaps| ==> gaps[i].upper.GreaterThan(gaps[i].lower))
    && (forall i, j :: 0 <= i < j < |gaps| ==> gaps[j].lower.GreaterThan(gaps[i].upper))
    && (|gaps| > 0 ==> gaps[|gaps| - 1].upper == Infinite)
  }

  // ---------- the algorithm ----------

  /** What is left of a gap once (previous, number] is taken out of it. */
  function Pieces(gap: Gap, previous: NumberPair, number: NumberPair): seq<Gap> {
    (if previous.EqualTo(gap.lower) then [] else [Gap(gap.lower, previous)])
    + (if number.EqualTo(gap.upper) then [] else [Gap(number, gap.upper)])
  }

  /** The gap list without the stretch (previous, number], which lies inside gap i. */
  function Carved(gaps: seq<Gap>, i: nat, previous: NumberPair, number: NumberPair): seq<Gap>
    requires i < |gaps|
  {
    gaps[..i] + Pieces(gaps[i], previous, number) + gaps[i + 1..]
  }

  /** How many gaps a list may have between messages: the first gap is never dropped at once. */
  function Room(max: nat): nat {
    if max == 0 then 1 else max
  }

  /** Room is made by forgetting the lowest gap. */
  function Capped(gaps: seq<Gap>, max: nat): seq<Gap> {
    if |gaps| > max then gaps[1..] else gaps
  }

  /** The downward search over the first n gaps: which verdict, and for New at which gap. */
  function Scan(gaps: seq<Gap>, n: nat, previous: NumberPair, number: NumberPair): (Verdict, nat)
    requires n <= |gaps|
  {
    if n == 0 then (Duplicate, 0)
    else
      var Gap(lower, upper) := gaps[n - 1];
      if previous.GreaterThanOrEqual(upper) then (Duplicate, 0)
      else if previous.GreaterThanOrEqual(lower) then
        if number.GreaterThan(upper) then (GapMismatch, 0) else (New, n - 1)
      else if number.GreaterThan(lower) then (GapMismatch, 0)
      else Scan(gaps, n - 1, previous, number)
  }

  lemma {:induction false} ScanFindsAGap(gaps: seq<Gap>, n: nat, previous: NumberPair, number: NumberPair)
    requires n <= |gaps|
    ensures var (verdict, i) := Scan(gaps, n, previous, number);
            verdict == New ==> i < n && gaps[i].lower.CompareTo(previous) <= 0 && gaps[i].upper.CompareTo(number) >= 0
  {
    if n > 0 { ScanFindsAGap(gaps, n - 1, previous, number); }
  }

  /** Verdict and new gap list for one message. */
  function Check(gaps: seq<Gap>, m: Numbering, max: nat): (Verdict, seq<Gap>) {
    if m.Invalid() then (InvalidNumbering, gaps)
    else if gaps == [] then (New, [Gap(m.number, Infinite)])
    else
      var last := |gaps| - 1;
      match m.previous
      case None =>
        if m.number.GreaterThan(gaps[last].lower)
        then (New, gaps[last := Gap(m.number, gaps[last].upper)])
        else (Duplicate, gaps)
      case Some(previous) =>
        var (verdict, i) := Scan(gaps, |gaps|, previous, m.number);
        ScanFindsAGap(gaps, |gaps|, previous, m.number);
        if verdict == New then (New, Capped(Carved(gaps, i, previous, m.number), max))
        else (verdict, gaps)
  }

  class DuplicateMessageDetector {
    const maxNumberOfGaps: nat
    var gaps: seq<Gap>

    ghost predicate Valid()
      reads this
    {
      Sorted(gaps) && |gaps| <= Room(maxNumberOfGaps)
    }

    constructor (maxNumberOfGaps: nat)
      ensures this.maxNumberOfGaps == maxNumberOfGaps && gaps == [] && Valid()
    {
      this.maxNumberOfGaps := maxNumberOfGaps;
      gaps := [];
    }

    method MarkAndCheck(m: Numbering) returns (verdict: Verdict)
      requires Valid() && m.Finite()
      modifies this`gaps
      ensures Valid()
      ensures (verdict, gaps) == Check(old(gaps), m, maxNumberOfGaps)
    {
      CheckKeepsSorted(gaps, m, maxNumberOfGaps);
      if m.previous.Some? && m.previous.value.GreaterThanOrEqual(m.number) {
        return InvalidNumbering;
      }
      if |gaps| == 0 {
        gaps := [Gap(m.number, Infinite)];
        return New;
      }
      if m.previous.None? {
        var last := |gaps| - 1;
        if m.number.GreaterThan(gaps[last].lower) {
          gaps := gaps[last := Gap(m.number, gaps[last].upper)];
          return New;
        }
        return Duplicate;
      }
      var previous, number := m.previous.value, m.number;
      var i := |gaps| - 1;
      while i >= 0
        invariant -1 <= i < |gaps| && gaps == old(gaps)
        invariant Scan(gaps, |gaps|, previous, number) == Scan(gaps, i + 1, previous, number)
      {
        var Gap(lower, upper) := gaps[i];
        if previous.GreaterThanOrEqual(upper) {
          return Duplicate;
        }
        if previous.GreaterThanOrEqual(lower) {
          if number.GreaterThan(upper) {
            return GapMismatch;
          }
          CarveGap(i, previous, number);
          DropLowestGapIfOverMaxNumberOfGaps();
          return New;
        }
        if number.GreaterThan(lower) {
          return GapMismatch;
        }
        i := i - 1;
      }
      return Duplicate;
    }

    /** Shrink, split or remove gap i. */
    method CarveGap(i: nat, previous: NumberPair, number: NumberPair)
      requires i < |gaps|
      modifies this`gaps
      ensures gaps == Carved(old(gaps), i, previous, number)
    {
      var Gap(lower, upper) := gaps[i];
      if previous.EqualTo(lower) {
        if number.EqualTo(upper) {
          gaps := gaps[..i] + gaps[i + 1..];
        } else {
          gaps := gaps[i := Gap(number, upper)];
        }
      } else if number.EqualTo(upper) {
        gaps := gaps[i := Gap(lower, previous)];
      } else {
        gaps := gaps[..i] + [Gap(lower, previous), Gap(number, upper)] + gaps[i + 1..];
      }
    }

    method DropLowestGapIfOverMaxNumberOfGaps()
      modifies this`gaps
      ensures gaps == Capped(old(gaps), maxNumberOfGaps)
    {
      if |gaps| > maxNumberOfGaps {
        gaps := gaps[1..];
      }
    }
  }

  // ---------- the gap list refines the unseen set ----------

  /** (previous, number] lies inside the gap. */
  ghost predicate Within(gap: Gap, previous: NumberPair, number: NumberPair) {
    && previous.Pair? && number.Pair? && number.GreaterThan(previous)
    && previous.GreaterThanOrEqual(gap.lower) && gap.upper.GreaterThanOrEqual(number)
  }

  lemma PiecesOfAGap(gap: Gap, previous: NumberPair, number: NumberPair)
    requires Within(gap, previous, number)
    ensures var p := Pieces(gap, previous, number);
            && |p| <= 2
            && (gap.upper.Infinite? ==> |p| > 0 && p[|p| - 1].upper.Infinite?)
            && (|p| == 2 ==> p[1].lower.GreaterThan(p[0].upper))
            && forall k :: 0 <= k < |p| ==>
                 && p[k].upper.GreaterThan(p[k].lower)
                 && p[k].lower.GreaterThanOrEqual(gap.lower) && gap.upper.GreaterThanOrEqual(p[k].upper)
  {
  }

  /** Sorted, but for the last gap being unbounded. */
  ghost predicate Ordered(gaps: seq<Gap>) {
    && (forall i :: 0 <= i < |gaps| ==> gaps[i].upper.GreaterThan(gaps[i].lower))
    && (forall i, j :: 0 <= i < j < |gaps| ==> gaps[j].lower.GreaterThan(gaps[i].upper))
  }

  /** Every gap ends below the given number, or starts above it. */
  ghost predicate AllBelow(gaps: seq<Gap>, x: NumberPair) {
    forall i :: 0 <= i < |gaps| ==> x.GreaterThan(gaps[i].upper)
  }

  ghost predicate AllFrom(gaps: seq<Gap>, x: NumberPair) {
    forall i :: 0 <= i < |gaps| ==> gaps[i].lower.GreaterThanOrEqual(x)
  }

  lemma OrderedConcat(a: seq<Gap>, b: seq<Gap>, x: NumberPair)
    requires Ordered(a) && Ordered(b) && AllBelow(a, x) && AllFrom(b, x)
    ensures Ordered(a + b)
  {
    forall i, j | 0 <= i < |a| && 0 <= j < |b| ensures b[j].lower.GreaterThan(a[i].upper) {
      assert x.GreaterThan(a[i].upper) && b[j].lower.GreaterThanOrEqual(x);
    }
  }

  lemma LaterGapsAreAbove(gaps: seq<Gap>, i: nat)
    requires Sorted(gaps) && i + 1 < |gaps|
    ensures Ordered(gaps[i + 1..]) && AllFrom(gaps[i + 1..], gaps[i + 1].lower)
    ensures AllBelow(gaps[..i], gaps[i + 1].lower) && gaps[i + 1].lower.GreaterThan(gaps[i].upper)
  {
  }

  lemma CarvedIsSorted(gaps: seq<Gap>, i: nat, previous: NumberPair, number: NumberPair)
    requires Sorted(gaps) && i < |gaps| && Within(gaps[i], previous, number)
    ensures Sorted(Carved(gaps, i, previous, number))
    ensures 1 <= |Carved(gaps, i, previous, number)| <= |gaps| + 1
  {
    PiecesOfAGap(gaps[i], previous, number);
    var before, p, after := gaps[..i], Pieces(gaps[i], previous, number), gaps[i + 1..];
    OrderedConcat(before, p, gaps[i].lower);
    if after == [] {
      assert before + p + after == before + p;
    } else {
      LaterGapsAreAbove(gaps, i);
      assert AllBelow(p, after[0].lower);
      OrderedConcat(before + p, after, after[0].lower);
    }
  }

  lemma UnseenOfConcat(s: seq<Gap>, t: seq<Gap>, x: NumberPair)
    ensures Unseen(s + t, x) <==> Unseen(s, x) || Unseen(t, x)
  {
    if Unseen(s, x) {
      var i :| 0 <= i < |s| && s[i].Contains(x);
      assert (s + t)[i].Contains(x);
    }
    if Unseen(t, x) {
      var i :| 0 <= i < |t| && t[i].Contains(x);
      assert (s + t)[|s| + i].Contains(x);
    }
  }

  lemma UnseenInPieces(gap: Gap, previous: NumberPair, number: NumberPair, x: NumberPair)
    requires Within(gap, previous, number)
    ensures Unseen(Pieces(gap, previous, number), x) <==> gap.Contains(x) && !Gap(previous, number).Contains(x)
  {
    var p := Pieces(gap, previous, number);
    if gap.Contains(x) && !Gap(previous, number).Contains(x) {
      assert p[if x.GreaterThan(number) then |p| - 1 else 0].Contains(x);
    }
  }

  /** Carving removes exactly the stretch from the unseen set. */
  lemma CarvedUnseen(gaps: seq<Gap>, i: nat, previous: NumberPair, number: NumberPair, x: NumberPair)
    requires Sorted(gaps) && i < |gaps| && Within(gaps[i], previous, number)
    ensures Unseen(Carved(gaps, i, previous, number), x) <==> Unseen(gaps, x) && !Gap(previous, number).Contains(x)
  {
    var before, p, after := gaps[..i], Pieces(gaps[i], previous, number), gaps[i + 1..];
    UnseenInPieces(gaps[i], previous, number, x);
    UnseenOfConcat(before + p, after, x);
    UnseenOfConcat(before, p, x);
    assert gaps == before + [gaps[i]] + after;
    UnseenOfConcat(before + [gaps[i]], after, x);
    UnseenOfConcat(before, [gaps[i]], x);
    assert Unseen([gaps[i]], x) <==> gaps[i].Contains(x) by { assert [gaps[i]][0] == gaps[i]; }
    if Gap(previous, number).Contains(x) {
      assert gaps[i].Contains(x);
      assert !Unseen(before, x) && !Unseen(after, x);
    }
  }

  lemma CheckKeepsSorted(gaps: seq<Gap>, m: Numbering, max: nat)
    requires Sorted(gaps) && |gaps| <= Room(max) && m.Finite()
    ensures Sorted(Check(gaps, m, max).1) && |Check(gaps, m, max).1| <= Room(max)
    ensures 1 <= max && Check(gaps, m, max).1 == [] ==> gaps == []
  {
    if !m.Invalid() && gaps != [] && m.previous.Some? {
      var (verdict, i) := Scan(gaps, |gaps|, m.previous.value, m.number);
      ScanFindsAGap(gaps, |gaps|, m.previous.value, m.number);
      if verdict == New { CarvedIsSorted(gaps, i, m.previous.value, m.number); }
    }
  }

  /** x lies at or below the lower end of gap n, if there is one. */
  ghost predicate NotAboveGap(gaps: seq<Gap>, n: nat, x: NumberPair) {
    n < |gaps| ==> gaps[n].lower.GreaterThanOrEqual(x)
  }

  lemma SeenBetweenGaps(gaps: seq<Gap>, n: nat, x: NumberPair)
    requires Sorted(gaps) && n <= |gaps| && x.Pair? && NotAboveGap(gaps, n, x)
    requires n > 0 ==> x.GreaterThan(gaps[n - 1].upper)
    ensures !Unseen(gaps, x)
  {
    forall i | 0 <= i < |gaps| ensures !gaps[i].Contains(x) {
      if i < n - 1 { assert gaps[n - 1].lower.GreaterThan(gaps[i].upper); }
      if i > n { assert gaps[i].lower.GreaterThan(gaps[n].upper); }
    }
  }

  /** What the downward search has found out, in terms of the unseen set. */
  lemma {:induction false} ScanReflectsUnseen(gaps: seq<Gap>, n: nat, previous: NumberPair, number: NumberPair)
    requires Sorted(gaps) && n <= |gaps| && NotAboveGap(gaps, n, number)
    requires previous.Pair? && number.Pair? && number.GreaterThan(previous)
    ensures var (verdict, i) := Scan(gaps, n, previous, number);
            match verdict
            case New => i < n && Within(gaps[i], previous, number)
            case Duplicate => forall x :: Gap(previous, number).Contains(x) ==> !Unseen(gaps, x)
            case GapMismatch =>
              && (exists x :: Gap(previous, number).Contains(x) && Unseen(gaps, x))
              && (exists y :: Gap(previous, number).Contains(y) && !Unseen(gaps, y))
            case InvalidNumbering => false
  {
    if n == 0 {
      forall x | Gap(previous, number).Contains(x) ensures !Unseen(gaps, x) {
        SeenBetweenGaps(gaps, 0, x);
      }
    } else {
      var Gap(lower, upper) := gaps[n - 1];
      if previous.GreaterThanOrEqual(upper) {
        forall x | Gap(previous, number).Contains(x) ensures !Unseen(gaps, x) {
          SeenBetweenGaps(gaps, n, x);
        }
      } else if previous.GreaterThanOrEqual(lower) {
        if number.GreaterThan(upper) {
          assert gaps[n - 1].Contains(upper) && Gap(previous, number).Contains(upper);
          SeenBetweenGaps(gaps, n, number);
          assert Gap(previous, number).Contains(number);
        }
      } else if number.GreaterThan(lower) {
        SeenBetweenGaps(gaps, n - 1, lower) by {
          if n > 1 { assert gaps[n - 1].lower.GreaterThan(gaps[n - 2].upper); }
        }
        assert Gap(previous, number).Contains(lower);
        var x := if number.GreaterThan(upper) then upper else number;
        assert gaps[n - 1].Contains(x) && Gap(previous, number).Contains(x);
      } else {
        ScanReflectsUnseen(gaps, n - 1, previous, number);
      }
    }
  }

  /** Refinement: for a message with a proper previous number, the verdict tells how the
      stretch (previous, number] relates to the unseen set.
   */
  lemma VerdictReflectsUnseen(gaps: seq<Gap>, m: Numbering, max: nat)
    requires Sorted(gaps) && gaps != [] && m.Finite() && m.previous.Some? && !m.Invalid()
    ensures var verdict := Check(gaps, m, max).0;
            && (verdict == New <==> forall x :: m.Stretch().Contains(x) ==> Unseen(gaps, x))
            && (verdict == Duplicate <==> forall x :: m.Stretch().Contains(x) ==> !Unseen(gaps, x))
            && (verdict == GapMismatch <==>
                  && (exists x :: m.Stretch().Contains(x) && Unseen(gaps, x))
                  && (exists y :: m.Stretch().Contains(y) && !Unseen(gaps, y)))
  {
    var previous, number := m.previous.value, m.number;
    var (verdict, i) := Scan(gaps, |gaps|, previous, number);
    ScanReflectsUnseen(gaps, |gaps|, previous, number);
    assert m.Stretch().Contains(number);
    if verdict == New {
      forall x | m.Stretch().Contains(x) ensures Unseen(gaps, x) { assert gaps[i].Contains(x); }
    }
  }

  /** A message without previous number is new exactly when it is above everything seen. */
  lemma UnchainedVerdict(gaps: seq<Gap>, m: Numbering, max: nat)
    requires Sorted(gaps) && gaps != [] && m.Finite() && m.previous.None?
    ensures var verdict := Check(gaps, m, max).0;
            && (verdict == New || verdict == Duplicate)
            && (verdict == New <==> forall x: NumberPair :: x.Pair? && x.GreaterThanOrEqual(m.number) ==>
                Unseen(gaps, x))
  {
    var last := |gaps| - 1;
    if m.number.GreaterThan(gaps[last].lower) {
      forall x: NumberPair | x.Pair? && x.GreaterThanOrEqual(m.number) ensures Unseen(gaps, x) {
        assert gaps[last].Contains(x);
      }
    } else {
      SeenBetweenGaps(gaps, last, gaps[last].lower) by {
        if last > 0 { assert gaps[last].lower.GreaterThan(gaps[last - 1].upper); }
      }
    }
  }

  // ---------- what becomes of the unseen set ----------

  /** The gap list after a new message, before the limit is applied. */
  function Marked(gaps: seq<Gap>, m: Numbering): seq<Gap> {
    Check(gaps, m, |gaps| + 1).1
  }

  /** A new message takes exactly its stretch out of the unseen set; without previous number
      it takes everything up to its number out of the last gap. A message with any other
      verdict changes nothing.
   */
  lemma MarkedUnseen(gaps: seq<Gap>, m: Numbering, x: NumberPair)
    requires Sorted(gaps) && gaps != [] && m.Finite() && x.Pair?
    requires Check(gaps, m, |gaps| + 1).0 == New
    ensures var taken := if m.previous.Some? then m.Stretch() else Gap(gaps[|gaps| - 1].lower, m.number);
            Unseen(Marked(gaps, m), x) <==> Unseen(gaps, x) && !taken.Contains(x)
  {
    if m.previous.Some? {
      var (_, i) := Scan(gaps, |gaps|, m.previous.value, m.number);
      ScanReflectsUnseen(gaps, |gaps|, m.previous.value, m.number);
      CarvedIsSorted(gaps, i, m.previous.value, m.number);
      CarvedUnseen(gaps, i, m.previous.value, m.number, x);
    } else {
      var last := |gaps| - 1;
      var front := gaps[..last];
      assert gaps == front + [gaps[last]];
      assert Marked(gaps, m) == front + [Gap(m.number, gaps[last].upper)];
      UnseenOfConcat(front, [gaps[last]], x);
      UnseenOfConcat(front, [Gap(m.number, gaps[last].upper)], x);
      assert Unseen([gaps[last]], x) <==> gaps[last].Contains(x) by { assert [gaps[last]][0] == gaps[last]; }
      var g := Gap(m.number, gaps[last].upper);
      assert Unseen([g], x) <==> g.Contains(x) by { assert [g][0] == g; }
      if Gap(gaps[last].lower, m.number).Contains(x) {
        assert !Unseen(front, x);
      }
    }
  }

  /** The limit costs at most the lowest gap, and only when the limit is exceeded. */
  lemma CappedUnseen(gaps: seq<Gap>, max: nat, x: NumberPair)
    requires Sorted(gaps) && gaps != []
    ensures Unseen(Capped(gaps, max), x) <==> Unseen(gaps, x) && (|gaps| > max ==> x.GreaterThan(gaps[0].upper))
  {
    var first := [gaps[0]];
    assert gaps == first + gaps[1..];
    UnseenOfConcat(first, gaps[1..], x);
    assert Unseen(first, x) <==> gaps[0].Contains(x) by { assert first[0] == gaps[0]; }
    if Unseen(gaps[1..], x) {
      var i :| 0 <= i < |gaps[1..]| && gaps[1..][i].Contains(x);
      assert gaps[i + 1].Contains(x);
    }
  }

  /** The limit plays no part in the verdict, and is applied last. */
  lemma CheckIsMarkThenCap(gaps: seq<Gap>, m: Numbering, max: nat)
    requires Sorted(gaps) && |gaps| <= max && 1 <= max && m.Finite()
    ensures Check(gaps, m, max).0 == Check(gaps, m, |gaps| + 1).0
    ensures Check(gaps, m, max).1 == if Check(gaps, m, max).0 == New then Capped(Marked(gaps, m), max) else gaps
    ensures Sorted(Marked(gaps, m)) && |Marked(gaps, m)| <= |gaps| + 1
  {
    CheckKeepsSorted(gaps, m, |gaps| + 1);
    if !m.Invalid() && gaps != [] && m.previous.Some? {
      var (verdict, i) := Scan(gaps, |gaps|, m.previous.value, m.number);
      ScanReflectsUnseen(gaps, |gaps|, m.previous.value, m.number);
      if verdict == New { CarvedIsSorted(gaps, i, m.previous.value, m.number); }
    }
  }
}

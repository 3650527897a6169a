/** Runs of the duplicate detector: over arbitrary messages, and over the messages of one
    publisher's chain presented in any order.
 */
module ChainDetection {
  import opened Options
  import opened MessageRefs
  import opened DuplicateMessageDetectors
  import opened MessageChainers

  // ---------- arbitrary messages ----------

  /** The gap list before message k is presented. */
  ghost function GapsBefore(ms: seq<Numbering>, k: nat, max: nat): seq<Gap>
    requires k <= |ms|
  {
    if k == 0 then [] else Check(GapsBefore(ms, k - 1, max), ms[k - 1], max).1
  }

  ghost function VerdictAt(ms: seq<Numbering>, k: nat, max: nat): Verdict
    requires k < |ms|
  {
    Check(GapsBefore(ms, k, max), ms[k], max).0
  }

  ghost predicate AllFinite(ms: seq<Numbering>) {
    forall k :: 0 <= k < |ms| ==> ms[k].Finite()
  }

  lemma {:induction false} GapsStaySorted(ms: seq<Numbering>, k: nat, max: nat)
    requires AllFinite(ms) && k <= |ms| && 1 <= max
    ensures Sorted(GapsBefore(ms, k, max)) && |GapsBefore(ms, k, max)| <= max
  {
    if k > 0 {
      GapsStaySorted(ms, k - 1, max);
      CheckKeepsSorted(GapsBefore(ms, k - 1, max), ms[k - 1], max);
    }
  }

  /** The unseen set only ever shrinks. */
  lemma CheckOnlyShrinks(gaps: seq<Gap>, m: Numbering, max: nat, x: NumberPair)
    requires Sorted(gaps) && gaps != [] && |gaps| <= max && m.Finite() && x.Pair?
    ensures Check(gaps, m, max).1 != []
    ensures Unseen(Check(gaps, m, max).1, x) ==> Unseen(gaps, x)
  {
    CheckIsMarkThenCap(gaps, m, max);
    CheckKeepsSorted(gaps, m, max);
    if Check(gaps, m, max).0 == New {
      CheckKeepsSorted(gaps, m, |gaps| + 1);
      MarkedUnseen(gaps, m, x);
      CappedUnseen(Marked(gaps, m), max, x);
    }
  }

  lemma {:induction false} SeenStaysSeen(ms: seq<Numbering>, j: nat, k: nat, max: nat, x: NumberPair)
    requires AllFinite(ms) && j <= k <= |ms| && 1 <= max && x.Pair?
    requires GapsBefore(ms, j, max) != [] && !Unseen(GapsBefore(ms, j, max), x)
    ensures GapsBefore(ms, k, max) != [] && !Unseen(GapsBefore(ms, k, max), x)
    decreases k
  {
    if j < k {
      SeenStaysSeen(ms, j, k - 1, max, x);
      GapsStaySorted(ms, k - 1, max);
      CheckOnlyShrinks(GapsBefore(ms, k - 1, max), ms[k - 1], max, x);
    }
  }

  /** A message reported new is seen from then on, with all of its stretch. */
  lemma NewIsMarked(gaps: seq<Gap>, m: Numbering, max: nat, x: NumberPair)
    requires Sorted(gaps) && |gaps| <= max && 1 <= max && m.Finite() && x.Pair?
    requires Check(gaps, m, max).0 == New
    requires x == m.number || (m.previous.Some? && m.Stretch().Contains(x))
    ensures Check(gaps, m, max).1 != [] && !Unseen(Check(gaps, m, max).1, x)
  {
    if gaps != [] {
      CheckIsMarkThenCap(gaps, m, max);
      CheckOnlyShrinks(gaps, m, max, x);
      CheckKeepsSorted(gaps, m, |gaps| + 1);
      MarkedUnseen(gaps, m, x);
      CappedUnseen(Marked(gaps, m), max, x);
    }
  }

  lemma NewWasUnseen(gaps: seq<Gap>, m: Numbering, max: nat)
    requires Sorted(gaps) && gaps != [] && m.Finite() && Check(gaps, m, max).0 == New
    ensures Unseen(gaps, m.number)
  {
    if m.previous.Some? {
      VerdictReflectsUnseen(gaps, m, max);
      assert m.Stretch().Contains(m.number);
    } else {
      UnchainedVerdict(gaps, m, max);
    }
  }

  /** Over every run, even of malformed messages, a number is reported new at most once. */
  lemma NewAtMostOnce(ms: seq<Numbering>, j: nat, k: nat, max: nat)
    requires AllFinite(ms) && j < k < |ms| && 1 <= max
    requires ms[j].number == ms[k].number && VerdictAt(ms, j, max) == New
    ensures VerdictAt(ms, k, max) != New
  {
    var x := ms[j].number;
    GapsStaySorted(ms, j, max);
    NewIsMarked(GapsBefore(ms, j, max), ms[j], max, x);
    SeenStaysSeen(ms, j + 1, k, max, x);
    GapsStaySorted(ms, k, max);
    if VerdictAt(ms, k, max) == New { NewWasUnseen(GapsBefore(ms, k, max), ms[k], max); }
  }

  /** Presenting again a message that was reported new is a duplicate, never an error. */
  lemma RedeliveryIsDuplicate(ms: seq<Numbering>, j: nat, k: nat, max: nat)
    requires AllFinite(ms) && j < k < |ms| && 1 <= max
    requires ms[j] == ms[k] && VerdictAt(ms, j, max) == New
    ensures VerdictAt(ms, k, max) == Duplicate
  {
    var m := ms[j];
    GapsStaySorted(ms, j, max);
    GapsStaySorted(ms, k, max);
    NewIsMarked(GapsBefore(ms, j, max), m, max, m.number);
    SeenStaysSeen(ms, j + 1, k, max, m.number);
    if m.previous.Some? {
      forall x | m.Stretch().Contains(x) ensures !Unseen(GapsBefore(ms, k, max), x) {
        NewIsMarked(GapsBefore(ms, j, max), m, max, x);
        SeenStaysSeen(ms, j + 1, k, max, x);
      }
      VerdictReflectsUnseen(GapsBefore(ms, k, max), m, max);
    } else {
      NewAtMostOnce(ms, j, k, max);
      UnchainedVerdict(GapsBefore(ms, k, max), m, max);
    }
  }

  /** With a limit of no gaps at all, every number would be forgotten as soon as it is marked: the
      second message is new a second time.
   */
  lemma NoGapsNoMemory()
    ensures var first, second := Numbering(None, Pair(1, 0)), Numbering(Some(Pair(1, 0)), Pair(2, 0));
            VerdictAt([first, second, second], 1, 0) == New && VerdictAt([first, second, second], 2, 0) == New
  {
    var first, second := Numbering(None, Pair(1, 0)), Numbering(Some(Pair(1, 0)), Pair(2, 0));
    var ms := [first, second, second];
    var one := [Gap(first.number, Infinite)];
    assert GapsBefore(ms, 0, 0) == [];
    assert GapsBefore(ms, 1, 0) == one;
    assert Scan(one, 1, first.number, second.number) == (New, 0);
    assert Carved(one, 0, first.number, second.number) == [Gap(second.number, Infinite)];
    assert GapsBefore(ms, 2, 0) == [];
  }

  // ---------- the messages of one chain ----------

  function ToPair(ref: MessageRef): NumberPair {
    Pair(ref.timestamp, ref.sequenceNumber)
  }

  function ToNumbering(link: Link): Numbering {
    Numbering(if link.prev.Some? then Some(ToPair(link.prev.value)) else None, ToPair(link.ref))
  }

  function ToNumberings(links: seq<Link>): seq<Numbering> {
    seq(|links|, i requires 0 <= i < |links| => ToNumbering(links[i]))
  }

  ghost predicate Follows(chain: seq<Numbering>, i: nat)
    requires 0 < i < |chain|
  {
    chain[i].previous == Some(chain[i - 1].number)
  }

  /** Strictly increasing numbers, each naming the one before as its predecessor. */
  ghost predicate Consecutive(chain: seq<Numbering>) {
    && AllFinite(chain)
    && (|chain| > 0 ==> chain[0].previous == None)
    && (forall i {:trigger Follows(chain, i)} :: 0 < i < |chain| ==> Follows(chain, i))
    && (forall i, j :: 0 <= i < j < |chain| ==> chain[j].number.GreaterThan(chain[i].number))
  }

  lemma LinkedIsConsecutive(links: seq<Link>)
    requires Linked(None, links)
    ensures Consecutive(ToNumberings(links))
  {
    var chain := ToNumberings(links);
    forall i | 0 < i < |chain| ensures Follows(chain, i) {
      assert links[i].prev == Some(links[i - 1].ref);
    }
    forall i, j | 0 <= i < j < |chain| ensures chain[j].number.GreaterThan(chain[i].number) {
      assert links[i].ref.Before(links[j].ref);
    }
  }

  /** Exactly the backdated messages of a publisher have invalid numbering. */
  lemma InvalidIffBackdated(last: Option<MessageRef>, timestamp: nat)
    ensures var (ref, prev) := Assign(last, timestamp);
            ToNumbering(Link(ref, prev)).Invalid() <==> Backdated(last, timestamp)
  {
  }

  /** Published with timestamps 2 and then 1, the second message is never accepted, not even when it
      arrives first.
   */
  lemma BackdatedIsRejected(max: nat)
    ensures var links := Handed(None, [2, 1]);
            && |links| == 2 && links[1] == Link(MessageRef(1, 0), Some(MessageRef(2, 0)))
            && VerdictAt(ToNumberings(links), 1, max) == InvalidNumbering
            && VerdictAt([ToNumbering(links[1])], 0, max) == InvalidNumbering
  {
    var links := Handed(None, [2, 1]);
    assert [2, 1][1..] == [1];
    assert links == [Link(MessageRef(2, 0), None)] + Handed(Some(MessageRef(2, 0)), [1]);
  }

  ghost predicate LinkNumber(chain: seq<Numbering>, x: NumberPair) {
    exists c :: 0 <= c < |chain| && chain[c].number == x
  }

  /** Every end of a gap is the number of a chain message. */
  ghost predicate CutAtLinks(gaps: seq<Gap>, chain: seq<Numbering>) {
    forall i :: 0 <= i < |gaps| ==>
      LinkNumber(chain, gaps[i].lower) && (gaps[i].upper == Infinite || LinkNumber(chain, gaps[i].upper))
  }

  lemma GapCoversWholeStretch(gap: Gap, chain: seq<Numbering>, i: nat, x: NumberPair)
    requires Consecutive(chain) && 0 < i < |chain| && Gap(chain[i - 1].number, chain[i].number).Contains(x)
    requires LinkNumber(chain, gap.lower) && (gap.upper == Infinite || LinkNumber(chain, gap.upper))
    ensures gap.Contains(x) <==> gap.Contains(chain[i].number)
  {
    var c :| 0 <= c < |chain| && chain[c].number == gap.lower;
    if c < i - 1 { assert chain[i - 1].number.GreaterThan(chain[c].number); }
    if c > i { assert chain[c].number.GreaterThan(chain[i].number); }
    if gap.upper != Infinite {
      var d :| 0 <= d < |chain| && chain[d].number == gap.upper;
      if d < i - 1 { assert chain[i - 1].number.GreaterThan(chain[d].number); }
      if d > i { assert chain[d].number.GreaterThan(chain[i].number); }
    }
  }

  lemma FirstLinkIsSeen(gaps: seq<Gap>, chain: seq<Numbering>)
    requires Consecutive(chain) && chain != [] && CutAtLinks(gaps, chain)
    ensures forall i :: 0 <= i < |gaps| ==> !chain[0].number.GreaterThan(gaps[i].lower)
  {
    forall i | 0 <= i < |gaps| ensures !chain[0].number.GreaterThan(gaps[i].lower) {
      var c :| 0 <= c < |chain| && chain[c].number == gaps[i].lower;
      if c > 0 { assert chain[c].number.GreaterThan(chain[0].number); }
    }
  }

  /** A chain message is never in error: it is new exactly when its number is unseen. */
  lemma ChainVerdict(gaps: seq<Gap>, chain: seq<Numbering>, i: nat, max: nat)
    requires Sorted(gaps) && gaps != [] && Consecutive(chain) && i < |chain| && CutAtLinks(gaps, chain)
    ensures Check(gaps, chain[i], max).0 == if Unseen(gaps, chain[i].number) then New else Duplicate
  {
    if i == 0 {
      FirstLinkIsSeen(gaps, chain);
    } else {
      assert Follows(chain, i) && chain[i].number.GreaterThan(chain[i - 1].number);
      forall x | chain[i].Stretch().Contains(x) ensures Unseen(gaps, x) <==> Unseen(gaps, chain[i].number) {
        forall g | 0 <= g < |gaps| ensures gaps[g].Contains(x) <==> gaps[g].Contains(chain[i].number) {
          GapCoversWholeStretch(gaps[g], chain, i, x);
        }
      }
      assert chain[i].Stretch().Contains(chain[i].number);
      VerdictReflectsUnseen(gaps, chain[i], max);
    }
  }

  lemma CutsOfConcat(s: seq<Gap>, t: seq<Gap>, chain: seq<Numbering>)
    requires CutAtLinks(s, chain) && CutAtLinks(t, chain)
    ensures CutAtLinks(s + t, chain)
  {
  }

  lemma CheckKeepsCuts(gaps: seq<Gap>, chain: seq<Numbering>, i: nat, max: nat)
    requires Sorted(gaps) && Consecutive(chain) && i < |chain| && CutAtLinks(gaps, chain)
    ensures CutAtLinks(Check(gaps, chain[i], max).1, chain)
  {
    assert LinkNumber(chain, chain[i].number);
    if gaps != [] && i > 0 && !chain[i].Invalid() {
      assert Follows(chain, i);
      var previous, number := chain[i - 1].number, chain[i].number;
      assert LinkNumber(chain, previous);
      var (verdict, g) := Scan(gaps, |gaps|, previous, number);
      ScanFindsAGap(gaps, |gaps|, previous, number);
      if verdict == New { CarvingKeepsCuts(gaps, chain, g, previous, number); }
    }
  }

  lemma CarvingKeepsCuts(
      gaps: seq<Gap>, chain: seq<Numbering>, g: nat, previous: NumberPair, number: NumberPair)
    requires CutAtLinks(gaps, chain) && g < |gaps| && LinkNumber(chain, previous) && LinkNumber(chain, number)
    ensures CutAtLinks(Carved(gaps, g, previous, number), chain)
  {
    var p := Pieces(gaps[g], previous, number);
    CutsOfConcat(gaps[..g], p, chain);
    CutsOfConcat(gaps[..g] + p, gaps[g + 1..], chain);
  }

  /** Every message presented belongs to the chain or has invalid numbering. */
  ghost predicate Presents(ms: seq<Numbering>, chain: seq<Numbering>) {
    AllFinite(ms) && forall k :: 0 <= k < |ms| ==> ms[k].Invalid() || ms[k] in chain
  }

  lemma ChainIsValid(chain: seq<Numbering>, m: Numbering)
    requires Consecutive(chain) && m in chain
    ensures !m.Invalid()
  {
    var i :| 0 <= i < |chain| && chain[i] == m;
    if i > 0 { assert Follows(chain, i) && chain[i].number.GreaterThan(chain[i - 1].number); }
  }

  lemma {:induction false} GapsStayCutAtLinks(ms: seq<Numbering>, chain: seq<Numbering>, k: nat, max: nat)
    requires Consecutive(chain) && Presents(ms, chain) && k <= |ms| && 1 <= max
    ensures CutAtLinks(GapsBefore(ms, k, max), chain)
  {
    if k > 0 {
      GapsStayCutAtLinks(ms, chain, k - 1, max);
      GapsStaySorted(ms, k - 1, max);
      if ms[k - 1] in chain {
        var i :| 0 <= i < |chain| && chain[i] == ms[k - 1];
        CheckKeepsCuts(GapsBefore(ms, k - 1, max), chain, i, max);
      }
    }
  }

  /** Presented in any order and any number of times, chain messages never raise an error, and
      the only error is invalid numbering, for exactly the backdated ones.
   */
  lemma ChainNeverFails(ms: seq<Numbering>, chain: seq<Numbering>, k: nat, max: nat)
    requires Consecutive(chain) && Presents(ms, chain) && k < |ms| && 1 <= max
    ensures ms[k] in chain ==> VerdictAt(ms, k, max) in {New, Duplicate}
    ensures ms[k].Invalid() <==> VerdictAt(ms, k, max) == InvalidNumbering
    ensures ms[k].Invalid() <==> ms[k] !in chain
  {
    GapsStaySorted(ms, k, max);
    GapsStayCutAtLinks(ms, chain, k, max);
    if ms[k] in chain {
      ChainIsValid(chain, ms[k]);
      var i :| 0 <= i < |chain| && chain[i] == ms[k];
      if GapsBefore(ms, k, max) != [] { ChainVerdict(GapsBefore(ms, k, max), chain, i, max); }
    }
  }

  ghost predicate Fits(ms: seq<Numbering>, k: nat, max: nat)
    requires k < |ms|
  {
    |Marked(GapsBefore(ms, k, max), ms[k])| <= max
  }

  /** The gap limit was not hit by any of the first k messages. */
  ghost predicate NeverCapped(ms: seq<Numbering>, k: nat, max: nat)
    requires k <= |ms|
  {
    forall j {:trigger Fits(ms, j, max)} :: 0 <= j < k ==> Fits(ms, j, max)
  }

  /** The p-th message presented is the first valid one, number f of the chain. */
  ghost predicate StartsAt(ms: seq<Numbering>, chain: seq<Numbering>, p: nat, f: nat) {
    && p < |ms| && f < |chain| && ms[p] == chain[f]
    && forall k :: 0 <= k < p ==> ms[k].Invalid()
  }

  lemma {:induction false} NothingBeforeTheStart(ms: seq<Numbering>, k: nat, max: nat)
    requires k <= |ms| && forall j :: 0 <= j < k ==> ms[j].Invalid()
    ensures GapsBefore(ms, k, max) == []
  {
    if k > 0 { NothingBeforeTheStart(ms, k - 1, max); }
  }

  lemma StretchHoldsOneLink(chain: seq<Numbering>, i: nat, t: nat)
    requires Consecutive(chain) && 0 < i < |chain| && t < |chain|
    ensures Gap(chain[i - 1].number, chain[i].number).Contains(chain[t].number) <==> t == i
  {
    assert chain[i].number.GreaterThan(chain[i - 1].number);
    if t < i - 1 { assert chain[i - 1].number.GreaterThan(chain[t].number); }
    if t > i { assert chain[t].number.GreaterThan(chain[i].number); }
  }

  lemma CheckTakesOneLink(gaps: seq<Gap>, chain: seq<Numbering>, i: nat, t: nat, max: nat)
    requires Sorted(gaps) && gaps != [] && |gaps| <= max && Consecutive(chain) && CutAtLinks(gaps, chain)
    requires i < |chain| && t < |chain| && |Marked(gaps, chain[i])| <= max
    ensures Unseen(Check(gaps, chain[i], max).1, chain[t].number) <==> Unseen(gaps, chain[t].number) && t != i
  {
    ChainVerdict(gaps, chain, i, max);
    CheckIsMarkThenCap(gaps, chain[i], max);
    if Unseen(gaps, chain[i].number) {
      if i == 0 { FirstLinkIsSeen(gaps, chain); }
      MarkedUnseen(gaps, chain[i], chain[t].number);
      if i > 0 {
        assert Follows(chain, i);
        StretchHoldsOneLink(chain, i, t);
      }
    }
  }

  lemma LinksDiffer(chain: seq<Numbering>, i: nat, t: nat)
    requires Consecutive(chain) && i < |chain| && t < |chain| && chain[i] == chain[t]
    ensures i == t
  {
  }

  /** m is among the messages presented from position p up to k. */
  ghost predicate Presented(ms: seq<Numbering>, p: nat, k: nat, m: Numbering)
    requires k <= |ms|
  {
    exists j :: p <= j < k && ms[j] == m
  }

  lemma UnseenAfterFirst(ms: seq<Numbering>, chain: seq<Numbering>, p: nat, f: nat, max: nat, t: nat)
    requires Consecutive(chain) && StartsAt(ms, chain, p, f) && t < |chain|
    ensures GapsBefore(ms, p + 1, max) != []
    ensures Unseen(GapsBefore(ms, p + 1, max), chain[t].number) <==> t > f
  {
    NothingBeforeTheStart(ms, p, max);
    ChainIsValid(chain, ms[p]);
    var gap := Gap(chain[f].number, Infinite);
    assert GapsBefore(ms, p + 1, max) == [gap] && [gap][0] == gap;
    if t < f { assert chain[f].number.GreaterThan(chain[t].number); }
    if t > f { assert chain[t].number.GreaterThan(chain[f].number); }
  }

  lemma UnseenAfterOneMore(ms: seq<Numbering>, chain: seq<Numbering>, k: nat, max: nat, t: nat)
    requires Consecutive(chain) && Presents(ms, chain) && k < |ms| && 1 <= max && t < |chain|
    requires GapsBefore(ms, k, max) != [] && |Marked(GapsBefore(ms, k, max), ms[k])| <= max
    ensures GapsBefore(ms, k + 1, max) != []
    ensures Unseen(GapsBefore(ms, k + 1, max), chain[t].number)
            <==> Unseen(GapsBefore(ms, k, max), chain[t].number) && ms[k] != chain[t]
  {
    GapsStaySorted(ms, k, max);
    GapsStayCutAtLinks(ms, chain, k, max);
    CheckKeepsSorted(GapsBefore(ms, k, max), ms[k], max);
    ChainIsValid(chain, chain[t]);
    if ms[k] in chain {
      var i :| 0 <= i < |chain| && chain[i] == ms[k];
      CheckTakesOneLink(GapsBefore(ms, k, max), chain, i, t, max);
      if ms[k] == chain[t] { LinksDiffer(chain, i, t); }
    }
  }

  /** As long as the limit is not hit, the unseen chain messages are exactly those later than
      the first one presented that have not been presented yet.
   */
  lemma {:induction false} UnseenLinks(
      ms: seq<Numbering>, chain: seq<Numbering>, p: nat, f: nat, k: nat, max: nat, t: nat)
    requires Consecutive(chain) && Presents(ms, chain) && StartsAt(ms, chain, p, f)
    requires p < k <= |ms| && 1 <= max && NeverCapped(ms, k, max) && t < |chain|
    ensures GapsBefore(ms, k, max) != []
    ensures Unseen(GapsBefore(ms, k, max), chain[t].number) <==> t > f && !Presented(ms, p, k, chain[t])
    decreases k
  {
    if k == p + 1 {
      UnseenAfterFirst(ms, chain, p, f, max, t);
      assert ms[p] == chain[f];
      if t > f && chain[t] == chain[f] { LinksDiffer(chain, f, t); }
    } else {
      UnseenLinks(ms, chain, p, f, k - 1, max, t);
      assert Fits(ms, k - 1, max);
      UnseenAfterOneMore(ms, chain, k - 1, max, t);
      PresentedOneMore(ms, p, k, chain[t]);
    }
  }

  lemma PresentedOneMore(ms: seq<Numbering>, p: nat, k: nat, m: Numbering)
    requires p < k <= |ms|
    ensures Presented(ms, p, k, m) <==> Presented(ms, p, k - 1, m) || ms[k - 1] == m
  {
  }

  /** As long as the limit is not hit, a chain message is reported new exactly when it is the
      first message presented, or a later one presented for the first time.
   */
  lemma NewExactlyOnce(
      ms: seq<Numbering>, chain: seq<Numbering>, p: nat, f: nat, k: nat, max: nat, i: nat)
    requires Consecutive(chain) && Presents(ms, chain) && StartsAt(ms, chain, p, f)
    requires p <= k < |ms| && 1 <= max && NeverCapped(ms, k, max) && i < |chain| && ms[k] == chain[i]
    ensures VerdictAt(ms, k, max) == New <==> k == p || (i > f && !Presented(ms, p, k, ms[k]))
  {
    if k == p {
      NothingBeforeTheStart(ms, p, max);
      ChainIsValid(chain, ms[p]);
    } else {
      UnseenLinks(ms, chain, p, f, k, max, i);
      GapsStaySorted(ms, k, max);
      GapsStayCutAtLinks(ms, chain, k, max);
      ChainVerdict(GapsBefore(ms, k, max), chain, i, max);
    }
  }

  // ---------- when the limit cannot be hit ----------

  lemma {:induction false} LowerEndIsFarEnough(gaps: seq<Gap>, chain: seq<Numbering>, i: nat) returns (c: nat)
    requires Sorted(gaps) && Consecutive(chain) && CutAtLinks(gaps, chain) && i < |gaps|
    ensures i <= c < |chain| && chain[c].number == gaps[i].lower
    decreases i
  {
    c :| 0 <= c < |chain| && chain[c].number == gaps[i].lower;
    if i > 0 {
      var d := LowerEndIsFarEnough(gaps, chain, i - 1);
      assert gaps[i].lower.GreaterThan(gaps[i - 1].upper) && gaps[i - 1].upper.GreaterThan(gaps[i - 1].lower);
      if c <= d { LaterInChain(chain, d, c); }
    }
  }

  /** A limit no smaller than the chain is never hit. */
  lemma LongLimitIsNeverHit(ms: seq<Numbering>, chain: seq<Numbering>, k: nat, max: nat)
    requires Consecutive(chain) && Presents(ms, chain) && k <= |ms| && 1 <= max && |chain| <= max
    ensures NeverCapped(ms, k, max)
  {
    forall j | 0 <= j < k ensures Fits(ms, j, max) {
      var gaps := GapsBefore(ms, j, max);
      GapsStaySorted(ms, j, max);
      GapsStayCutAtLinks(ms, chain, j, max);
      CheckIsMarkThenCap(gaps, ms[j], max);
      var marked := Marked(gaps, ms[j]);
      if ms[j] in chain {
        var i :| 0 <= i < |chain| && chain[i] == ms[j];
        CheckKeepsCuts(gaps, chain, i, |gaps| + 1);
        FewerGapsThanLinks(marked, chain);
      }
    }
  }

  lemma FewerGapsThanLinks(gaps: seq<Gap>, chain: seq<Numbering>)
    requires Sorted(gaps) && Consecutive(chain) && CutAtLinks(gaps, chain)
    ensures |gaps| <= |chain|
  {
    if gaps != [] { var c := LowerEndIsFarEnough(gaps, chain, |gaps| - 1); }
  }

  // ---------- from publisher to detector ----------

  lemma NumberingsKeepMembership(links: seq<Link>, link: Link)
    ensures ToNumbering(link) in ToNumberings(links) <==> link in links
  {
    if link in links {
      var i :| 0 <= i < |links| && links[i] == link;
      assert ToNumberings(links)[i] == ToNumbering(link);
    }
  }

  ghost predicate Published(timestamps: seq<nat>, arrivals: seq<Link>) {
    forall k :: 0 <= k < |arrivals| ==> arrivals[k] in Handed(None, timestamps)
  }

  lemma {:induction false} ArrivalsPresentTheChain(timestamps: seq<nat>, arrivals: seq<Link>)
    requires Published(timestamps, arrivals)
    ensures Consecutive(ToNumberings(Chain(None, timestamps)))
    ensures Presents(ToNumberings(arrivals), ToNumberings(Chain(None, timestamps)))
  {
    var ms, links := ToNumberings(arrivals), Chain(None, timestamps);
    ChainIsLinked(None, timestamps);
    LinkedIsConsecutive(links);
    forall k | 0 <= k < |ms| ensures ms[k].Invalid() || ms[k] in ToNumberings(links) {
      var handed := Handed(None, timestamps);
      assert arrivals[k] in handed;
      var h :| 0 <= h < |handed| && handed[h] == arrivals[k];
      HandedIsChainOrBackdated(None, timestamps, h);
      NumberingsKeepMembership(links, arrivals[k]);
    }
  }

  /** Whatever timestamps a publisher uses, and in whatever order and multiplicity its messages
      arrive: the only error is invalid numbering, for exactly the backdated messages, and no
      number is reported new twice.
   */
  lemma {:induction false} PublishedMessagesNeverMismatch(timestamps: seq<nat>, arrivals: seq<Link>, max: nat, k: nat)
    requires 1 <= max && k < |arrivals| && Published(timestamps, arrivals)
    ensures var ms := ToNumberings(arrivals);
            && VerdictAt(ms, k, max) != GapMismatch
            && (VerdictAt(ms, k, max) == InvalidNumbering <==> arrivals[k] !in Chain(None, timestamps))
            && forall j :: 0 <= j < k && arrivals[j].ref == arrivals[k].ref && VerdictAt(ms, j, max) == New ==>
                 VerdictAt(ms, k, max) != New
  {
    var ms, links := ToNumberings(arrivals), Chain(None, timestamps);
    ArrivalsPresentTheChain(timestamps, arrivals);
    ChainNeverFails(ms, ToNumberings(links), k, max);
    NumberingsKeepMembership(links, arrivals[k]);
    forall j | 0 <= j < k && arrivals[j].ref == arrivals[k].ref && VerdictAt(ms, j, max) == New
      ensures VerdictAt(ms, k, max) != New
    {
      NewAtMostOnce(ms, j, k, max);
    }
  }

  /** With a limit no smaller than the chain, a message is reported new exactly when it is the
      first to arrive, or is later in the chain than that one and arrives for the first time.
   */
  lemma {:induction false} PublishedMessagesAreNewOnce(
      timestamps: seq<nat>, arrivals: seq<Link>, max: nat, p: nat, k: nat)
    requires 1 <= max && |Chain(None, timestamps)| <= max && Published(timestamps, arrivals)
    requires p <= k < |arrivals| && arrivals[p] in Chain(None, timestamps) && arrivals[k] in Chain(None, timestamps)
    requires forall j :: 0 <= j < p ==> arrivals[j] !in Chain(None, timestamps)
    ensures VerdictAt(ToNumberings(arrivals), k, max) == New <==>
            k == p || (arrivals[p].ref.Before(arrivals[k].ref) && forall j :: p <= j < k ==> arrivals[j] != arrivals[k])
  {
    var ms, links := ToNumberings(arrivals), Chain(None, timestamps);
    var chain := ToNumberings(links);
    ArrivalsPresentTheChain(timestamps, arrivals);
    var f :| 0 <= f < |links| && links[f] == arrivals[p];
    var i :| 0 <= i < |links| && links[i] == arrivals[k];
    forall j | 0 <= j < p ensures ms[j].Invalid() {
      ChainNeverFails(ms, chain, j, max);
      NumberingsKeepMembership(links, arrivals[j]);
    }
    LongLimitIsNeverHit(ms, chain, k, max);
    NewExactlyOnce(ms, chain, p, f, k, max, i);
    LaterInChain(chain, f, i);
    forall j | p <= j < k ensures ms[j] == ms[k] <==> arrivals[j] == arrivals[k] {}
  }

  lemma LaterInChain(chain: seq<Numbering>, f: nat, i: nat)
    requires Consecutive(chain) && f < |chain| && i < |chain|
    ensures i > f <==> chain[i].number.GreaterThan(chain[f].number)
  {
    if i < f { assert chain[f].number.GreaterThan(chain[i].number); }
  }
}

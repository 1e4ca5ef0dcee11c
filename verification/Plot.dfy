/** The tag index: which plotted tags answer a slot challenge, and whether a validator accepts them. */
module Plot {
  import opened Basics

  const TX_BLOCKS_PER_PROPOSER_BLOCK: nat := 4

  /** Tags are compared as big-endian 64-bit numbers. */
  type Tag = u64

  datatype Entry = Entry(tag: Tag, index: nat)

  // ----- 64-bit windows

  function Lower(target: Tag, range: Tag): (r: Tag) {
    (target - range / 2) % TWO_64
  }

  function Upper(target: Tag, range: Tag): (r: Tag) {
    (target + range / 2) % TWO_64
  }

  /** One end of the window lies beyond 0 or beyond the largest tag. */
  predicate Wraps(target: Tag, range: Tag) {
    target < range / 2 || target + range / 2 >= TWO_64
  }

  /** The range test shared by sortition and validation. */
  predicate InRange(tag: Tag, target: Tag, range: Tag) {
    if Wraps(target, range) then Upper(target, range) <= tag || tag <= Lower(target, range)
    else Lower(target, range) <= tag <= Upper(target, range)
  }

  /** How far apart two tags are when the largest is followed by 0. */
  function Distance(a: Tag, b: Tag): (d: nat)
    ensures d <= TWO_64 / 2
  {
    var d := if a <= b then b - a else a - b;
    if d <= TWO_64 - d then d else TWO_64 - d
  }

  predicate Near(tag: Tag, target: Tag, range: Tag) {
    Distance(tag, target) <= range / 2
  }

  /** A window that wraps keeps both ends of the tag order and leaves out the middle. */
  lemma NearWhenWrapped(tag: Tag, target: Tag, range: Tag)
    ensures Wraps(target, range) ==> Upper(target, range) < Lower(target, range)
    ensures Near(tag, target, range) <==>
            if Wraps(target, range) then tag <= Upper(target, range) || Lower(target, range) <= tag
            else Lower(target, range) <= tag <= Upper(target, range)
  {
    var half := range / 2;
    if target < half {
      assert Lower(target, range) == target - half + TWO_64;
    } else if target + half >= TWO_64 {
      assert Upper(target, range) == target + half - TWO_64;
    }
  }

  /** The range test accepts a tag exactly when it is near or the window wraps. */
  lemma InRangeIffNearOrWraps(tag: Tag, target: Tag, range: Tag)
    ensures InRange(tag, target, range) <==> Near(tag, target, range) || Wraps(target, range)
  {
    NearWhenWrapped(tag, target, range);
  }

  /** So the range test is the distance test exactly when the window does not wrap. */
  lemma RangeTestExactIffNoWrap(target: Tag, range: Tag)
    ensures (forall tag: Tag :: InRange(tag, target, range) <==> Near(tag, target, range)) <==> !Wraps(target, range)
  {
    if Wraps(target, range) {
      var opposite: Tag := (target + TWO_64 / 2) % TWO_64;
      InRangeIffNearOrWraps(opposite, target, range);
      assert Distance(opposite, target) == TWO_64 / 2;
    } else {
      forall tag: Tag ensures InRange(tag, target, range) <==> Near(tag, target, range) {
        InRangeIffNearOrWraps(tag, target, range);
      }
    }
  }

  // ----- sortition and validation

  function ProposerRange(range: Tag): (r: Tag) {
    range / (TX_BLOCKS_PER_PROPOSER_BLOCK + 1)
  }

  /** Local sortition: a block names a parent exactly when its tag meets the proposer range. */
  predicate IsProposer(tag: Tag, target: Tag, range: Tag) {
    InRange(tag, target, ProposerRange(range))
  }

  /** The range check of block validation, for a block with or without a parent. */
  predicate PassesRangeCheck(hasParent: bool, tag: Tag, target: Tag, range: Tag) {
    if hasParent then InRange(tag, target, ProposerRange(range)) else InRange(tag, target, range)
  }

  /** The share of a range that makes proposer blocks is one in five, rounded down. */
  lemma ProposersAreOneInFive(range: Tag)
    ensures 5 * ProposerRange(range) <= range < 5 * ProposerRange(range) + 5
  {
  }

  /**
   * A tag that meets the proposer range meets the whole range.  When the window of the
   * proposer range does not wrap, sortition makes exactly the tags within a tenth of the
   * range proposers; otherwise it makes every tag one.
   */
  lemma SortitionIffNear(tag: Tag, target: Tag, range: Tag)
    ensures IsProposer(tag, target, range) ==> InRange(tag, target, range)
    ensures IsProposer(tag, target, range) <==>
            Distance(tag, target) <= range / 10 || target < range / 10 || target + range / 10 >= TWO_64
  {
    assert ProposerRange(range) / 2 == range / 10;
    InRangeIffNearOrWraps(tag, target, ProposerRange(range));
    InRangeIffNearOrWraps(tag, target, range);
  }

  /** The range check of validation asks a proposer block for a tenth of the range and a tx block for half of it. */
  lemma RangeCheckIffNear(hasParent: bool, tag: Tag, target: Tag, range: Tag)
    ensures
      var half := if hasParent then range / 10 else range / 2;
      PassesRangeCheck(hasParent, tag, target, range) <==>
        Distance(tag, target) <= half || target < half || target + half >= TWO_64
  {
    assert ProposerRange(range) / 2 == range / 10;
    InRangeIffNearOrWraps(tag, target, ProposerRange(range));
    InRangeIffNearOrWraps(tag, target, range);
  }

  // ----- the query

  /** The database iterates over its keys in ascending order, each once. */
  ghost predicate Sorted(entries: seq<Entry>) {
    forall i, j :: 0 <= i < j < |entries| ==> entries[i].tag < entries[j].tag
  }

  /** The position of the first key at or above `key`, or the end. */
  method Seek(entries: seq<Entry>, key: Tag) returns (cursor: nat)
    requires Sorted(entries)
    ensures cursor <= |entries|
    ensures forall i :: 0 <= i < |entries| ==> (entries[i].tag < key <==> i < cursor)
  {
    cursor := 0;
    while cursor < |entries| && entries[cursor].tag < key
      invariant cursor <= |entries|
      invariant forall i :: 0 <= i < cursor ==> entries[i].tag < key
    {
      cursor := cursor + 1;
    }
  }

  /** Collects entries from a cursor on, up to the last key that is at most `upper`. */
  method CollectUpTo(entries: seq<Entry>, start: nat, upper: Tag) returns (found: seq<Entry>)
    requires Sorted(entries) && start <= |entries|
    ensures start + |found| <= |entries| && found == entries[start..start + |found|]
    ensures forall i :: start <= i < |entries| ==> (entries[i].tag <= upper <==> i < start + |found|)
  {
    found := [];
    var cursor := start;
    while cursor < |entries|
      invariant start <= cursor <= |entries| && found == entries[start..cursor]
      invariant forall i :: start <= i < cursor ==> entries[i].tag <= upper
    {
      if entries[cursor].tag <= upper {
        found := found + [entries[cursor]];
        cursor := cursor + 1;
      } else {
        break;
      }
    }
  }

  method CollectRest(entries: seq<Entry>, start: nat) returns (found: seq<Entry>)
    requires start <= |entries|
    ensures found == entries[start..]
  {
    found := [];
    var cursor := start;
    while cursor < |entries|
      invariant start <= cursor <= |entries| && found == entries[start..cursor]
    {
      found := found + [entries[cursor]];
      cursor := cursor + 1;
    }
  }

  /** The entries whose tag is within range / 2 of the target on the circle, each once and in ascending order. */
  ghost predicate ExactlyNear(found: seq<Entry>, entries: seq<Entry>, target: Tag, range: Tag) {
    && (forall e :: e in found <==> e in entries && Near(e.tag, target, range))
    && NoDup(found) && Sorted(found)
  }

  method FindByRange(entries: seq<Entry>, target: Tag, range: Tag) returns (solutions: seq<Entry>)
    requires Sorted(entries)
    ensures ExactlyNear(solutions, entries, target, range)
  {
    hide Lower, Upper, Wraps, ExactlyNear, Sorted;
    var lower, upper := Lower(target, range), Upper(target, range);
    if Wraps(target, range) {
      var low := CollectUpTo(entries, 0, upper);
      var start := Seek(entries, lower);
      var high := CollectRest(entries, start);
      solutions := low + high;
      TwoEnds(entries, |low|, start, target, range);
    } else {
      var start := Seek(entries, lower);
      solutions := CollectUpTo(entries, start, upper);
      Middle(entries, start, start + |solutions|, target, range);
    }
  }

  lemma Middle(entries: seq<Entry>, start: nat, end: nat, target: Tag, range: Tag)
    requires Sorted(entries) && start <= end <= |entries| && !Wraps(target, range)
    requires forall i :: 0 <= i < |entries| ==> (entries[i].tag < Lower(target, range) <==> i < start)
    requires forall i :: start <= i < |entries| ==> (entries[i].tag <= Upper(target, range) <==> i < end)
    ensures ExactlyNear(entries[start..end], entries, target, range)
  {
    forall i | 0 <= i < |entries| ensures start <= i < end <==> Near(entries[i].tag, target, range) {
      NearWhenWrapped(entries[i].tag, target, range);
    }
  }

  lemma TwoEnds(entries: seq<Entry>, end: nat, start: nat, target: Tag, range: Tag)
    requires Sorted(entries) && end <= |entries| && start <= |entries| && Wraps(target, range)
    requires forall i :: 0 <= i < |entries| ==> (entries[i].tag <= Upper(target, range) <==> i < end)
    requires forall i :: 0 <= i < |entries| ==> (entries[i].tag < Lower(target, range) <==> i < start)
    ensures ExactlyNear(entries[..end] + entries[start..], entries, target, range)
  {
    forall i | 0 <= i < |entries| ensures i < end || start <= i <==> Near(entries[i].tag, target, range) {
      NearWhenWrapped(entries[i].tag, target, range);
    }
    NearWhenWrapped(target, target, range);
    assert end > 0 ==> entries[end - 1].tag < Lower(target, range);
  }

  /** Every tag the query returns passes the range check of validation after local sortition. */
  lemma FoundTagsPassRangeCheck(tag: Tag, target: Tag, range: Tag)
    requires Near(tag, target, range)
    ensures PassesRangeCheck(IsProposer(tag, target, range), tag, target, range)
  {
    InRangeIffNearOrWraps(tag, target, range);
  }
}

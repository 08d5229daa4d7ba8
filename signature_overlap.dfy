/** Proofs about the overlap check of the signature-coordinates form type
    (src/Form/SignatureCoordinatesType.php): which entries the nested loops report, stated over
    the collected list and over the submitted entries. */
module SignatureOverlap {
  import opened Wrappers
  import opened Values
  import opened SignatureType

  /** The list keeps the order of the entries. */
  lemma {:induction false} ListedOrdered(boxes: seq<BoxItem>, php: PhpRuntime, p: nat, q: nat)
    requires p < q < |Listed(boxes, php)|
    ensures Listed(boxes, php)[p].0 < Listed(boxes, php)[q].0
  {
    var n := |boxes| - 1;
    var init := Listed(boxes[..n], php);
    if q < |init| {
      ListedOrdered(boxes[..n], php, p, q);
      assert Listed(boxes, php)[p] == init[p] && Listed(boxes, php)[q] == init[q];
    } else {
      assert Listed(boxes, php)[p] == init[p];
    }
  }

  /** Every entry that yields a box is on the list. */
  lemma {:induction false} ListedHasEvery(boxes: seq<BoxItem>, php: PhpRuntime, k: nat)
    requires k < |boxes| && AsBox(boxes[k], php).Some?
    ensures exists p :: 0 <= p < |Listed(boxes, php)| && Listed(boxes, php)[p].0 == k
  {
    var n := |boxes| - 1;
    var init := Listed(boxes[..n], php);
    if k == n {
      assert Listed(boxes, php)[|init|].0 == k;
    } else {
      assert boxes[..n][k] == boxes[k];
      ListedHasEvery(boxes[..n], php, k);
      var p :| 0 <= p < |init| && init[p].0 == k;
      assert Listed(boxes, php)[p] == init[p];
    }
  }

  /** Some later box `q < j` of row `i` passes the test with box `i` and sits at position `k`. */
  predicate RowHas(list: seq<(nat, SignatureBox)>, hit: PairTest, i: nat, j: nat, k: nat)
    requires i < |list| && j <= |list|
  {
    exists q :: i < q < j && hit(list[i].1, list[q].1) && list[q].0 == k
  }

  /** Some row before `i` has a later box at position `k` that passes the test with it. */
  predicate PairsHave(list: seq<(nat, SignatureBox)>, hit: PairTest, i: nat, k: nat)
    requires i <= |list|
  {
    i > 0 && (PairsHave(list, hit, i - 1, k) || RowHas(list, hit, i - 1, |list|, k))
  }

  /** `PairsHave` is the existence of such a pair `p < q` with `p < i`. */
  lemma {:induction false} PairsHaveIff(list: seq<(nat, SignatureBox)>, hit: PairTest, i: nat, k: nat)
    requires i <= |list|
    ensures PairsHave(list, hit, i, k) <==>
      exists p, q :: 0 <= p < i && p < q < |list| && hit(list[p].1, list[q].1) && list[q].0 == k
  {
    if i > 0 {
      PairsHaveIff(list, hit, i - 1, k);
      if RowHas(list, hit, i - 1, |list|, k) {
        var q :| i - 1 < q < |list| && hit(list[i - 1].1, list[q].1) && list[q].0 == k;
        assert 0 <= i - 1 < i && i - 1 < q < |list|;
      }
      if exists p, q :: 0 <= p < i && p < q < |list| && hit(list[p].1, list[q].1) && list[q].0 == k {
        var p, q :| 0 <= p < i && p < q < |list| && hit(list[p].1, list[q].1) && list[q].0 == k;
        if p == i - 1 {
          assert RowHas(list, hit, i - 1, |list|, k);
        }
      }
    }
  }

  lemma RowHasStep(list: seq<(nat, SignatureBox)>, hit: PairTest, i: nat, j: nat, k: nat)
    requires i < |list| && i + 1 < j <= |list|
    ensures RowHas(list, hit, i, j, k) <==>
      RowHas(list, hit, i, j - 1, k) || (hit(list[i].1, list[j - 1].1) && list[j - 1].0 == k)
  {
  }

  lemma {:induction false} RowReportsMembers(list: seq<(nat, SignatureBox)>, hit: PairTest, i: nat, j: nat, k: nat)
    requires i < |list| && j <= |list|
    ensures k in RowReports(list, hit, i, j) <==> RowHas(list, hit, i, j, k)
    decreases j
  {
    if j > i + 1 {
      RowReportsMembers(list, hit, i, j - 1, k);
      RowHasStep(list, hit, i, j, k);
    }
  }

  /** One row of the outer loop keeps the membership characterisation. */
  lemma PairReportsStep(list: seq<(nat, SignatureBox)>, hit: PairTest, i: nat, k: nat)
    requires 0 < i <= |list|
    requires k in PairReports(list, hit, i - 1) <==> PairsHave(list, hit, i - 1, k)
    requires k in RowReports(list, hit, i - 1, |list|) <==> RowHas(list, hit, i - 1, |list|, k)
    ensures k in PairReports(list, hit, i) <==> PairsHave(list, hit, i, k)
  {
  }

  lemma {:induction false} PairReportsMembers(list: seq<(nat, SignatureBox)>, hit: PairTest, i: nat, k: nat)
    requires i <= |list|
    ensures k in PairReports(list, hit, i) <==> PairsHave(list, hit, i, k)
  {
    if i > 0 {
      PairReportsMembers(list, hit, i - 1, k);
      RowReportsMembers(list, hit, i - 1, |list|, k);
      PairReportsStep(list, hit, i, k);
    }
  }

  /** Entry `k` yields a box that overlaps the box of an earlier entry. */
  predicate OverlapsEarlier(boxes: seq<BoxItem>, php: PhpRuntime, k: nat) {
    k < |boxes| && AsBox(boxes[k], php).Some?
    && exists i :: 0 <= i < k && AsBox(boxes[i], php).Some?
                   && BoxesOverlap(AsBox(boxes[i], php).value, AsBox(boxes[k], php).value)
  }

  /** Entry `k` is reported exactly when it yields a box that overlaps the box of some earlier
      entry. */
  lemma OverlapReportedIff(boxes: seq<BoxItem>, php: PhpRuntime, k: nat)
    ensures var list := Listed(boxes, php);
      k in PairReports(list, BoxesOverlap, |list|) <==> OverlapsEarlier(boxes, php, k)
  {
    var list := Listed(boxes, php);
    PairReportsMembers(list, BoxesOverlap, |list|, k);
    PairsHaveIff(list, BoxesOverlap, |list|, k);
    if PairsHave(list, BoxesOverlap, |list|, k) {
      var p, q :| 0 <= p < |list| && p < q < |list| && BoxesOverlap(list[p].1, list[q].1) && list[q].0 == k;
      ReportedPairOverlaps(boxes, php, list, p, q);
    }
    if OverlapsEarlier(boxes, php, k) {
      var i :| 0 <= i < k && AsBox(boxes[i], php).Some?
               && BoxesOverlap(AsBox(boxes[i], php).value, AsBox(boxes[k], php).value);
      OverlappingPairIsListed(boxes, php, list, i, k);
    }
  }

  lemma ReportedPairOverlaps(boxes: seq<BoxItem>, php: PhpRuntime, list: seq<(nat, SignatureBox)>, p: nat, q: nat)
    requires list == Listed(boxes, php)
    requires p < q < |list| && BoxesOverlap(list[p].1, list[q].1)
    ensures OverlapsEarlier(boxes, php, list[q].0)
  {
    var i, k := list[p].0, list[q].0;
    ListedOrdered(boxes, php, p, q);
    assert AsBox(boxes[i], php) == Some(list[p].1);
    assert AsBox(boxes[k], php) == Some(list[q].1);
  }

  lemma OverlappingPairIsListed(boxes: seq<BoxItem>, php: PhpRuntime, list: seq<(nat, SignatureBox)>, i: nat, k: nat)
    requires list == Listed(boxes, php)
    requires i < k < |boxes| && AsBox(boxes[i], php).Some? && AsBox(boxes[k], php).Some?
    requires BoxesOverlap(AsBox(boxes[i], php).value, AsBox(boxes[k], php).value)
    ensures exists p, q :: 0 <= p < |list| && p < q < |list| && BoxesOverlap(list[p].1, list[q].1) && list[q].0 == k
  {
    ListedHasEvery(boxes, php, i);
    ListedHasEvery(boxes, php, k);
    var p :| 0 <= p < |list| && list[p].0 == i;
    var q :| 0 <= q < |list| && list[q].0 == k;
    assert list[p].1 == AsBox(boxes[i], php).value;
    assert list[q].1 == AsBox(boxes[k], php).value;
    if q < p {
      ListedOrdered(boxes, php, q, p);
    }
    assert 0 <= p < |list| && p < q < |list| && BoxesOverlap(list[p].1, list[q].1) && list[q].0 == k;
  }
}

/** The rows of the dataset and the two selections made from them:
    the target rows (industry, company and year) and the peer rows
    (industry and year only). Row order and duplicates are kept, as a
    boolean mask over a data frame keeps them. */
module Cohort {

  /** The four RPT ratio columns the outlier model is fitted on, in order. */
  datatype FeatureVector = FeatureVector(
    salesRatio: real,
    purchaseRatio: real,
    loanRatio: real,
    expenseToEbitda: real)

  /** One entity-year row of the dataset, restricted to the columns the scoring path reads. */
  datatype Row = Row(industry: string, company: string, year: int, features: FeatureVector)

  predicate InCohort(row: Row, industry: string, year: int) {
    row.industry == industry && row.year == year
  }

  predicate IsTarget(row: Row, industry: string, company: string, year: int) {
    InCohort(row, industry, year) && row.company == company
  }

  /** The peer rows: every row of the selected industry and year, in dataset order. */
  function PeerRows(rows: seq<Row>, industry: string, year: int): (peers: seq<Row>)
    ensures forall row :: multiset(peers)[row] == if InCohort(row, industry, year) then multiset(rows)[row] else 0
    ensures forall row :: row in peers <==> row in rows && InCohort(row, industry, year)
  {
    if rows == [] then []
    else
      assert rows == [rows[0]] + rows[1..];
      (if InCohort(rows[0], industry, year) then [rows[0]] else []) + PeerRows(rows[1..], industry, year)
  }

  /** The target rows: every row of the selected industry, company and year, in dataset order. */
  function TargetRows(rows: seq<Row>, industry: string, company: string, year: int): (targets: seq<Row>)
    ensures forall row :: multiset(targets)[row] == if IsTarget(row, industry, company, year) then multiset(rows)[row] else 0
    ensures forall row :: row in targets <==> row in rows && IsTarget(row, industry, company, year)
  {
    if rows == [] then []
    else
      assert rows == [rows[0]] + rows[1..];
      (if IsTarget(rows[0], industry, company, year) then [rows[0]] else []) + TargetRows(rows[1..], industry, company, year)
  }

  /** The peer selection keeps dataset order: selecting from two parts of
      the dataset and joining the results is selecting from the whole. */
  lemma {:induction false} PeerRowsAppend(front: seq<Row>, back: seq<Row>, industry: string, year: int)
    ensures PeerRows(front + back, industry, year) == PeerRows(front, industry, year) + PeerRows(back, industry, year)
  {
    if front == [] {
      assert front + back == back;
    } else {
      assert (front + back)[0] == front[0];
      assert (front + back)[1..] == front[1..] + back;
      PeerRowsAppend(front[1..], back, industry, year);
    }
  }

  /** The target selection keeps dataset order in the same sense. */
  lemma {:induction false} TargetRowsAppend(front: seq<Row>, back: seq<Row>, industry: string, company: string, year: int)
    ensures TargetRows(front + back, industry, company, year)
         == TargetRows(front, industry, company, year) + TargetRows(back, industry, company, year)
  {
    if front == [] {
      assert front + back == back;
    } else {
      assert (front + back)[0] == front[0];
      assert (front + back)[1..] == front[1..] + back;
      TargetRowsAppend(front[1..], back, industry, company, year);
    }
  }

  /** The first target row, the one `[0]` picks, is the first row of the
      dataset that matches industry, company and year. */
  lemma {:induction false} FirstTargetIsFirstMatch(rows: seq<Row>, industry: string, company: string, year: int, k: nat)
    requires k < |rows| && IsTarget(rows[k], industry, company, year)
    requires forall j :: 0 <= j < k ==> !IsTarget(rows[j], industry, company, year)
    ensures TargetRows(rows, industry, company, year) != []
    ensures TargetRows(rows, industry, company, year)[0] == rows[k]
  {
    if k > 0 {
      FirstTargetIsFirstMatch(rows[1..], industry, company, year, k - 1);
      assert TargetRows(rows, industry, company, year) == [] + TargetRows(rows[1..], industry, company, year);
    }
  }

  /** The target selection is the peer selection narrowed to one company. */
  lemma {:induction false} TargetRowsArePeerRows(rows: seq<Row>, industry: string, company: string, year: int)
    ensures TargetRows(rows, industry, company, year) == CompanyRows(PeerRows(rows, industry, year), company)
  {
    if rows != [] {
      var r, tail := rows[0], rows[1..];
      TargetRowsArePeerRows(tail, industry, company, year);
      var peersTail := PeerRows(tail, industry, year);
      if InCohort(r, industry, year) {
        var peers := [r] + peersTail;
        assert PeerRows(rows, industry, year) == peers;
        assert peers[0] == r && peers[1..] == peersTail;
        assert CompanyRows(peers, company) == (if r.company == company then [r] else []) + CompanyRows(peersTail, company);
      } else {
        assert PeerRows(rows, industry, year) == [] + peersTail == peersTail;
        assert TargetRows(rows, industry, company, year) == [] + TargetRows(tail, industry, company, year);
      }
    }
  }

  /** Every target row is a peer row, counted with multiplicity. */
  lemma TargetRowsSubMultiset(rows: seq<Row>, industry: string, company: string, year: int)
    ensures multiset(TargetRows(rows, industry, company, year)) <= multiset(PeerRows(rows, industry, year))
  {
    TargetRowsArePeerRows(rows, industry, company, year);
    var peers := PeerRows(rows, industry, year);
    assert forall row :: multiset(CompanyRows(peers, company))[row] <= multiset(peers)[row];
  }

  /** The rows of one company, in order (used to relate the two selections). */
  function CompanyRows(rows: seq<Row>, company: string): (kept: seq<Row>)
    ensures forall row :: multiset(kept)[row] == if row.company == company then multiset(rows)[row] else 0
  {
    if rows == [] then []
    else
      assert rows == [rows[0]] + rows[1..];
      (if rows[0].company == company then [rows[0]] else []) + CompanyRows(rows[1..], company)
  }

  /** A non-empty target selection implies a non-empty peer cohort containing the target row. */
  lemma FirstTargetIsPeer(rows: seq<Row>, industry: string, company: string, year: int)
    requires TargetRows(rows, industry, company, year) != []
    ensures TargetRows(rows, industry, company, year)[0] in PeerRows(rows, industry, year)
    ensures |PeerRows(rows, industry, year)| >= |TargetRows(rows, industry, company, year)|
  {
    var targets, peers := TargetRows(rows, industry, company, year), PeerRows(rows, industry, year);
    assert targets[0] in targets;
    TargetRowsSubMultiset(rows, industry, company, year);
    var rest := multiset(peers) - multiset(targets);
    assert multiset(peers) == multiset(targets) + rest;
    assert |multiset(peers)| == |multiset(targets)| + |rest|;
  }

  /** The training matrix: the four ratio columns of the given rows. */
  function FeatureMatrix(rows: seq<Row>): (matrix: seq<FeatureVector>)
    ensures |matrix| == |rows|
    ensures forall i :: 0 <= i < |rows| ==> matrix[i] == rows[i].features
  {
    seq(|rows|, i requires 0 <= i < |rows| => rows[i].features)
  }
}

/**
  Coverage arithmetic of lib/utils.go: GetCoveredPct, and the projection of
  profile blocks into display records (GetProfiledLines).
*/
module Coverage {

  /** cover.ProfileBlock: a source region, its statement count and its execution count. */
  datatype Block = Block(startLine: int, startCol: int, endLine: int, endCol: int, numStmt: nat, count: nat)

  /**
    A float64 coverage result, kept exact. The only non-finite value GetCoveredPct
    can return is +Inf (a positive count over zero statements); NaN is mapped to 0.
  */
  datatype Pct = Finite(value: real) | PosInfinity

  function SumCount(blocks: seq<Block>): nat
    decreases |blocks|
  {
    if |blocks| == 0 then 0 else SumCount(blocks[..|blocks| - 1]) + blocks[|blocks| - 1].count
  }

  function SumStmt(blocks: seq<Block>): nat
    decreases |blocks|
  {
    if |blocks| == 0 then 0 else SumStmt(blocks[..|blocks| - 1]) + blocks[|blocks| - 1].numStmt
  }

  function MaxCount(blocks: seq<Block>): nat
    decreases |blocks|
  {
    if |blocks| == 0 then 0
    else
      var m := MaxCount(blocks[..|blocks| - 1]);
      if blocks[|blocks| - 1].count > m then blocks[|blocks| - 1].count else m
  }

  /** Some block was executed more than once: the profile holds real counts. */
  predicate HasCountAboveOne(blocks: seq<Block>)
  {
    exists i :: 0 <= i < |blocks| && blocks[i].count > 1
  }

  /**
    The value GetCoveredPct computes, in exact arithmetic: with counted data (some
    count above 1) the sum of the counts over the sum of the statements, otherwise
    the sum of the counts over the number of blocks; 0 in place of NaN.
  */
  function CoveredPct(blocks: seq<Block>, multiplied: bool): Pct
  {
    var scale := if multiplied then 100.0 else 1.0;
    var covered := SumCount(blocks) as real;
    if HasCountAboveOne(blocks) then
      if SumStmt(blocks) == 0 then PosInfinity
      else Finite(covered / SumStmt(blocks) as real * scale)
    else if |blocks| == 0 then Finite(0.0)
    else Finite(covered / |blocks| as real * scale)
  }

  lemma {:induction false} MaxCountAboveOne(blocks: seq<Block>)
    ensures MaxCount(blocks) > 1 <==> HasCountAboveOne(blocks)
    decreases |blocks|
  {
    if |blocks| > 0 {
      var init := blocks[..|blocks| - 1];
      MaxCountAboveOne(init);
      if HasCountAboveOne(init) {
        var i :| 0 <= i < |init| && init[i].count > 1;
        assert blocks[i] == init[i];
      }
      if HasCountAboveOne(blocks) {
        var i :| 0 <= i < |blocks| && blocks[i].count > 1;
        if i < |init| { assert init[i] == blocks[i]; }
      }
    }
  }

  /** lib/utils.go GetCoveredPct: one pass accumulating the maximum and the two sums. */
  method GetCoveredPct(blocks: seq<Block>, multiplied: bool) returns (result: Pct)
    ensures result == CoveredPct(blocks, multiplied)
  {
    var max := 0;
    var covCount := 0;
    var stmtCount := 0;
    for i := 0 to |blocks|
      invariant max == MaxCount(blocks[..i])
      invariant covCount == SumCount(blocks[..i])
      invariant stmtCount == SumStmt(blocks[..i])
    {
      assert blocks[..i + 1][..i] == blocks[..i];
      var b := blocks[i];
      max := if b.count > max then b.count else max;
      covCount := covCount + b.count;
      stmtCount := stmtCount + b.numStmt;
    }
    assert blocks[..|blocks|] == blocks;
    MaxCountAboveOne(blocks);
    var scale := if multiplied then 100.0 else 1.0;
    if max > 1 {
      // covCount >= max > 1, so 0 statements give +Inf rather than NaN
      if stmtCount == 0 {
        result := PosInfinity;
      } else {
        result := Finite(covCount as real / stmtCount as real * scale);
      }
    } else if |blocks| == 0 {
      // 0/0 is NaN, which is replaced by 0
      result := Finite(0.0);
    } else {
      result := Finite(covCount as real / |blocks| as real * scale);
    }
  }

  /** No blocks: 0, with or without the factor 100. */
  lemma CoveredPctEmpty(multiplied: bool)
    ensures CoveredPct([], multiplied) == Finite(0.0)
  {
  }

  /** Number of blocks that were executed at least once. */
  function HitBlocks(blocks: seq<Block>): nat
    decreases |blocks|
  {
    if |blocks| == 0 then 0
    else HitBlocks(blocks[..|blocks| - 1]) + (if blocks[|blocks| - 1].count > 0 then 1 else 0)
  }

  lemma {:induction false} SumCountOfFlags(blocks: seq<Block>)
    requires !HasCountAboveOne(blocks)
    ensures SumCount(blocks) == HitBlocks(blocks)
    decreases |blocks|
  {
    if |blocks| > 0 {
      var init := blocks[..|blocks| - 1];
      assert !HasCountAboveOne(init) by {
        forall i | 0 <= i < |init| ensures init[i].count <= 1 { assert init[i] == blocks[i]; }
      }
      SumCountOfFlags(init);
      assert blocks[|blocks| - 1].count <= 1;
    }
  }

  /**
    Hit/miss data (every count at most 1): the share of blocks that were hit,
    times 100 when asked; it lies between 0 and the scale.
  */
  lemma CoveredPctOfFlags(blocks: seq<Block>, multiplied: bool)
    requires |blocks| > 0 && !HasCountAboveOne(blocks)
    ensures var scale := if multiplied then 100.0 else 1.0;
      CoveredPct(blocks, multiplied) == Finite(HitBlocks(blocks) as real / |blocks| as real * scale)
    ensures var scale := if multiplied then 100.0 else 1.0;
      0.0 <= CoveredPct(blocks, multiplied).value <= scale
  {
    SumCountOfFlags(blocks);
    HitBlocksBound(blocks);
    var h, n := HitBlocks(blocks) as real, |blocks| as real;
    assert 0.0 <= h / n <= 1.0 by {
      assert h <= n;
      assert h / n * n == h;
    }
  }

  lemma {:induction false} HitBlocksBound(blocks: seq<Block>)
    ensures HitBlocks(blocks) <= |blocks|
    decreases |blocks|
  {
    if |blocks| > 0 { HitBlocksBound(blocks[..|blocks| - 1]); }
  }

  /**
    Counted data (some count above 1): the sum of the raw execution counts over
    the sum of the statements, +Inf when there are no statements.
  */
  lemma CoveredPctOfCounts(blocks: seq<Block>, multiplied: bool)
    requires HasCountAboveOne(blocks)
    ensures SumStmt(blocks) == 0 ==> CoveredPct(blocks, multiplied) == PosInfinity
    ensures var scale := if multiplied then 100.0 else 1.0;
      SumStmt(blocks) > 0 ==>
      CoveredPct(blocks, multiplied) == Finite(SumCount(blocks) as real / SumStmt(blocks) as real * scale)
  {
  }

  /** The counted formula is not a share of statements: one block run 5 times over 4 statements gives 125. */
  lemma CountedCoverageExceedsHundred()
    ensures CoveredPct([Block(1, 1, 2, 1, 4, 5)], true) == Finite(125.0)
  {
    var b := [Block(1, 1, 2, 1, 4, 5)];
    assert b[0].count > 1;
    assert b[..0] == [];
  }

  lemma {:induction false} SumsRemove(s: seq<Block>, i: nat)
    requires i < |s|
    ensures SumCount(s) == SumCount(s[..i] + s[i + 1..]) + s[i].count
    ensures SumStmt(s) == SumStmt(s[..i] + s[i + 1..]) + s[i].numStmt
    decreases |s|
  {
    var last := |s| - 1;
    if i < last {
      var init := s[..last];
      SumsRemove(init, i);
      var rest := s[..i] + s[i + 1..];
      assert rest[..|rest| - 1] == init[..i] + init[i + 1..];
      assert rest[|rest| - 1] == s[last];
    } else {
      assert s[..i] + s[i + 1..] == s[..last];
    }
  }

  lemma {:induction false} SumsPermutation(a: seq<Block>, b: seq<Block>)
    requires multiset(a) == multiset(b)
    ensures SumCount(a) == SumCount(b) && SumStmt(a) == SumStmt(b)
    decreases |a|
  {
    if |a| > 0 {
      var x := a[|a| - 1];
      assert x in multiset(b);
      var j :| 0 <= j < |b| && b[j] == x;
      var a' := a[..|a| - 1];
      var b' := b[..j] + b[j + 1..];
      assert a == a' + [x];
      assert b == b[..j] + [x] + b[j + 1..];
      assert multiset(a) == multiset(a') + multiset{x};
      assert multiset(b) == multiset(b[..j]) + multiset{x} + multiset(b[j + 1..]);
      assert multiset(b') == multiset(b[..j]) + multiset(b[j + 1..]);
      assert multiset(a') + multiset{x} == multiset(b') + multiset{x};
      assert multiset(a') == multiset(a') + multiset{x} - multiset{x};
      assert multiset(b') == multiset(b') + multiset{x} - multiset{x};
      SumsPermutation(a', b');
      SumsRemove(b, j);
    } else {
      assert |b| == 0;
    }
  }

  /** GetCoveredPct depends only on the multiset of blocks: reordering changes nothing. */
  lemma CoveredPctPermutation(a: seq<Block>, b: seq<Block>, multiplied: bool)
    requires multiset(a) == multiset(b)
    ensures CoveredPct(a, multiplied) == CoveredPct(b, multiplied)
  {
    SumsPermutation(a, b);
    assert |a| == |multiset(a)| == |multiset(b)| == |b|;
    if HasCountAboveOne(a) {
      var i :| 0 <= i < |a| && a[i].count > 1;
      assert a[i] in multiset(b);
    }
    if HasCountAboveOne(b) {
      var i :| 0 <= i < |b| && b[i].count > 1;
      assert b[i] in multiset(a);
    }
  }

  /** A display record for one block (lib/types.go ReportedBlock). */
  datatype ReportedBlock = ReportedBlock(startLine: int, startCol: int, stopLine: int, stopCol: int, covered: bool)

  /** newReportedBlock: copies the coordinates, End* becoming Stop*. */
  function NewReportedBlock(b: Block, covered: bool): ReportedBlock
  {
    ReportedBlock(b.startLine, b.startCol, b.endLine, b.endCol, covered)
  }

  /** The records with covered set, in order. */
  function CoveredOnly(lines: seq<ReportedBlock>): seq<ReportedBlock>
    decreases |lines|
  {
    if |lines| == 0 then []
    else
      var init := CoveredOnly(lines[..|lines| - 1]);
      if lines[|lines| - 1].covered then init + [lines[|lines| - 1]] else init
  }

  /** `lines` holds one record per block, in order, marked covered when the block ran. */
  predicate ReportsBlocks(blocks: seq<Block>, lines: seq<ReportedBlock>)
  {
    |lines| == |blocks| &&
    forall i :: 0 <= i < |blocks| ==> lines[i] == NewReportedBlock(blocks[i], blocks[i].count > 0)
  }

  /** The display records of a block list are determined by the blocks. */
  lemma ReportsBlocksUnique(blocks: seq<Block>, l1: seq<ReportedBlock>, l2: seq<ReportedBlock>)
    requires ReportsBlocks(blocks, l1) && ReportsBlocks(blocks, l2)
    ensures l1 == l2
  {
  }

  /** GetProfiledLines: one record per block in order, and the covered ones among them. */
  method GetProfiledLines(blocks: seq<Block>) returns (reportedLines: seq<ReportedBlock>, coveredLines: seq<ReportedBlock>)
    ensures |reportedLines| == |blocks|
    ensures forall i :: 0 <= i < |blocks| ==>
      reportedLines[i] == NewReportedBlock(blocks[i], blocks[i].count > 0)
    ensures coveredLines == CoveredOnly(reportedLines)
  {
    reportedLines, coveredLines := [], [];
    for i := 0 to |blocks|
      invariant |reportedLines| == i
      invariant forall k :: 0 <= k < i ==> reportedLines[k] == NewReportedBlock(blocks[k], blocks[k].count > 0)
      invariant coveredLines == CoveredOnly(reportedLines)
    {
      var b := blocks[i];
      var covered := b.count > 0;
      var newBlock := NewReportedBlock(b, covered);
      if covered {
        coveredLines := coveredLines + [newBlock];
      }
      reportedLines := reportedLines + [newBlock];
      assert reportedLines[..i] == reportedLines[..|reportedLines| - 1];
    }
  }

  /**
    The covered records are exactly the records flagged covered: every one of
    them is flagged, each flagged record of the input is kept, and their number
    is the number of flagged records.
  */
  lemma {:induction false} CoveredOnlyExact(lines: seq<ReportedBlock>)
    ensures forall r :: r in CoveredOnly(lines) ==> r.covered && r in lines
    ensures forall i :: 0 <= i < |lines| && lines[i].covered ==> lines[i] in CoveredOnly(lines)
    ensures |CoveredOnly(lines)| == |set i | 0 <= i < |lines| && lines[i].covered|
    decreases |lines|
  {
    if |lines| > 0 {
      var n := |lines| - 1;
      var init := lines[..n];
      CoveredOnlyExact(init);
      var s := set i | 0 <= i < |lines| && lines[i].covered;
      var s' := set i | 0 <= i < n && init[i].covered;
      forall i | 0 <= i < n ensures init[i] == lines[i] { }
      if lines[n].covered {
        assert s == s' + {n};
      } else {
        assert s == s';
      }
    }
  }
}

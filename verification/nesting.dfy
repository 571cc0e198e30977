/**
 * Brace structure of line runs, and what the block scanner makes of a well-nested run:
 * the scan that starts after an opening line stops exactly at the closing line that
 * matches it.
 */
module Nesting {
  import opened Text
  import opened BlockScanner

  /** A run of non-empty lines whose braces match up: no prefix closes more blocks than it
      opened, and the whole run closes all it opens. */
  predicate Nested(lines: seq<string>) {
    && (forall k :: 0 <= k < |lines| ==> lines[k] != "")
    && (forall p :: 0 <= p <= |lines| ==> Balance(lines[..p]) >= 0)
    && Balance(lines) == 0
  }

  lemma BalanceNil()
    ensures Balance([]) == 0
  {
  }

  lemma BalanceCons(line: string, rest: seq<string>)
    ensures Balance([line] + rest) == Delta(line) + Balance(rest)
  {
    assert ([line] + rest)[1..] == rest;
  }

  lemma {:induction false} BalanceAppend(a: seq<string>, b: seq<string>)
    ensures Balance(a + b) == Balance(a) + Balance(b)
    decreases |a|
  {
    if |a| == 0 {
      assert a + b == b;
    } else {
      assert (a + b)[1..] == a[1..] + b;
      BalanceAppend(a[1..], b);
    }
  }

  /** Well-nested runs stay well-nested when put one after the other. */
  lemma NestedAppend(a: seq<string>, b: seq<string>)
    requires Nested(a) && Nested(b)
    ensures Nested(a + b)
  {
    BalanceAppend(a, b);
    forall p | 0 <= p <= |a + b| ensures Balance((a + b)[..p]) >= 0 {
      if p <= |a| {
        assert (a + b)[..p] == a[..p];
      } else {
        assert (a + b)[..p] == a + b[..p - |a|];
        BalanceAppend(a, b[..p - |a|]);
        assert a[..|a|] == a;
      }
    }
    assert forall k :: 0 <= k < |a + b| ==> (a + b)[k] != "" by {
      forall k | 0 <= k < |a + b| ensures (a + b)[k] != "" {
        if k >= |a| {
          assert (a + b)[k] == b[k - |a|];
        }
      }
    }
  }

  /** A single line that neither opens nor closes a block is well-nested. */
  lemma NestedLine(line: string)
    requires line != "" && Delta(line) == 0
    ensures Nested([line])
  {
    BalanceCons(line, []);
    assert [line][..0] == [] && [line][..1] == [line];
  }

  /** An opening line, a well-nested run and a closing line make a well-nested run. */
  lemma NestedBlock(opener: string, inner: seq<string>, closer: string)
    requires opener != "" && closer != "" && Delta(opener) == 1 && Delta(closer) == -1
    requires Nested(inner)
    ensures Nested([opener] + inner + [closer])
  {
    var all := [opener] + inner + [closer];
    BalanceAppend([opener] + inner, [closer]);
    BalanceCons(opener, inner);
    BalanceCons(closer, []);
    forall p | 0 <= p <= |all| ensures Balance(all[..p]) >= 0 {
      if p == 0 {
        assert all[..p] == [];
      } else if p <= |inner| + 1 {
        assert all[..p] == [opener] + inner[..p - 1];
        BalanceCons(opener, inner[..p - 1]);
      } else {
        assert all[..p] == all;
      }
    }
    forall k | 0 <= k < |all| ensures all[k] != "" {
      if 1 <= k <= |inner| {
        assert all[k] == inner[k - 1];
      }
    }
  }

  /** Dropping the first line of a stretch that never closes the block: the rest never
      closes it either, counting from the depth after that line. */
  lemma RunTail(lines: seq<string>, k: nat, depth: int, run: seq<string>)
    requires |run| > 0 && k + |run| < |lines| && lines[k..k + |run|] == run
    requires forall m :: 0 <= m < |run| ==> run[m] != ""
    requires forall p :: 0 <= p <= |run| ==> depth + Balance(run[..p]) >= 1
    ensures lines[k] == run[0] && run[0] != ""
    ensures lines[k + 1..k + 1 + |run[1..]|] == run[1..]
    ensures depth + Delta(run[0]) >= 1
    ensures Balance(run) == Delta(run[0]) + Balance(run[1..])
    ensures forall m :: 0 <= m < |run[1..]| ==> run[1..][m] != ""
    ensures forall p :: 0 <= p <= |run[1..]| ==> depth + Delta(run[0]) + Balance(run[1..][..p]) >= 1
  {
    var line := run[0];
    var rest := run[1..];
    SliceOfSlice(lines, k, k + |run|, 0, 1);
    SliceOfSlice(lines, k, k + |run|, 1, |run|);
    assert run == [line] + rest;
    BalanceCons(line, rest);
    assert run[..1] == [line] + rest[..0];
    BalanceCons(line, rest[..0]);
    forall p | 0 <= p <= |rest| ensures depth + Delta(line) + Balance(rest[..p]) >= 1 {
      assert run[..p + 1] == [line] + rest[..p];
      BalanceCons(line, rest[..p]);
    }
  }

  /** Started inside a block, the scan runs over a stretch that never closes it and stops
      at the first line that does: it collects exactly the stretch and that line. */
  lemma {:induction false} ScanRun(lines: seq<string>, k: nat, open: int, closed: int, index: nat, run: seq<string>)
    requires index <= k && k + |run| < |lines| && lines[k..k + |run|] == run
    requires open > closed
    requires forall m :: 0 <= m < |run| ==> run[m] != ""
    requires forall p :: 0 <= p <= |run| ==> open - closed + Balance(run[..p]) >= 1
    requires open - closed + Balance(run) == 1
    requires lines[k + |run|] != "" && Last(lines[k + |run|]) == '}'
    ensures ScanFrom(lines, k, open, closed, index) ==
      Block(run + [lines[k + |run|]], if |run| == 0 then index else k + |run|)
    decreases |run|
  {
    hide *;
    var closer := lines[k + |run|];
    if |run| == 0 {
      BalanceNil();
      ScanStep(lines, k, open, closed, index);
      assert run + [closer] == [closer];
    } else {
      var line := run[0];
      var rest := run[1..];
      RunTail(lines, k, open - closed, run);
      ScanStep(lines, k, open, closed, index);
      var open' := if Last(line) == '{' then open + 1 else open;
      var closed' := if Last(line) == '}' then closed + 1 else closed;
      ScanRun(lines, k + 1, open', closed', k + 1, rest);
      assert [line] + (rest + [closer]) == run + [closer];
    }
  }

  /** One iteration of the collecting loop on a non-empty line: the line is collected, and
      unless it closes the block the scan goes on with the counts updated. */
  lemma ScanStep(lines: seq<string>, k: nat, open: int, closed: int, index: nat)
    requires index <= k < |lines| && open > closed && lines[k] != ""
    ensures var line := lines[k];
      var open' := if Last(line) == '{' then open + 1 else open;
      var closed' := if Last(line) == '}' then closed + 1 else closed;
      && open' - closed' == open - closed + Delta(line)
      && (Last(line) == '}' ==> Delta(line) == -1)
      && ScanFrom(lines, k, open, closed, index) ==
        if open' == closed' then Block([line], index)
        else var t := ScanFrom(lines, k + 1, open', closed', k + 1); Block([line] + t.lines, t.resume)
  {
  }

  lemma OpenScan(opener: string, lines: seq<string>, start: nat)
    requires start < |lines|
    ensures var t := ScanFrom(lines, start + 1, 1, 0, start);
      ScanBlock(opener, lines, start) == Block([opener] + t.lines, t.resume)
  {
  }

  lemma SliceOfSlice(s: seq<string>, a: nat, b: nat, c: nat, d: nat)
    requires a <= b <= |s| && c <= d <= b - a
    ensures s[a..b][c..d] == s[a + c..a + d]
  {
    forall i | 0 <= i < d - c ensures s[a..b][c..d][i] == s[a + c..a + d][i] {
    }
  }

  /** A block chunk — an opening line, a well-nested run, a closing line — found at line `j`
      is collected exactly by the scanner; the loop index is left on the closing line, or on
      the opening line when the chunk has nothing inside. */
  lemma ScanChunk(lines: seq<string>, j: nat, chunk: seq<string>)
    requires |chunk| >= 2 && j + |chunk| <= |lines| && lines[j..j + |chunk|] == chunk
    requires Nested(chunk[1..|chunk| - 1])
    requires chunk[|chunk| - 1] != "" && Last(chunk[|chunk| - 1]) == '}'
    ensures ScanBlock(lines[j], lines, j) == Block(chunk, if |chunk| == 2 then j else j + |chunk| - 1)
  {
    var inner := chunk[1..|chunk| - 1];
    var closer := chunk[|chunk| - 1];
    SliceOfSlice(lines, j, j + |chunk|, 1, |chunk| - 1);
    SliceOfSlice(lines, j, j + |chunk|, |chunk| - 1, |chunk|);
    SliceOfSlice(lines, j, j + |chunk|, 0, 1);
    assert lines[j + 1 + |inner|] == closer;
    assert chunk == [lines[j]] + (inner + [closer]);
    ScanRun(lines, j + 1, 1, 0, j, inner);
    OpenScan(lines[j], lines, j);
  }
}

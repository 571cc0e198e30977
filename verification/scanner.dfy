/**
 * The block scanner shared by every nesting level of the reader: starting after a line
 * that opens a block, it collects lines until the count of lines ending in `}` catches up
 * with the count of lines ending in `{`. Only the LAST character of each line counts, and
 * empty lines are skipped without being collected.
 */
module BlockScanner {
  import opened Text

  /** The collected block text as lines, and the value the caller's loop index holds
      afterwards (the loops advance it in their for-increment, so a break on the very
      first line leaves it at the opener). A block that is never closed ends with an
      empty line, because the collected text then ends with a newline. */
  datatype Block = Block(lines: seq<string>, resume: nat)

  /** Depth change of one line. */
  function Delta(line: string): int {
    if line == "" then 0
    else if Last(line) == '{' then 1
    else if Last(line) == '}' then -1
    else 0
  }

  /** Depth change of a run of lines. */
  function Balance(lines: seq<string>): int {
    if |lines| == 0 then 0 else Delta(lines[0]) + Balance(lines[1..])
  }

  /** A collected block is closed when it does not end with the empty end-of-text line. */
  predicate Closed(lines: seq<string>) {
    |lines| > 0 && lines[|lines| - 1] != ""
  }

  /** Starting from `depth`, the depth stays positive after every proper non-empty prefix. */
  predicate StaysOpen(lines: seq<string>, depth: int) {
    forall p :: 1 <= p < |lines| ==> depth + Balance(lines[..p]) > 0
  }

  /** Collects the block opened by `opener` (line `start` of `lines`). Counting from depth one,
      the collected lines never close the block early, a closed block brings the depth back
      to zero on its last line, and an unclosed block runs to the end of the text. */
  function ScanBlock(opener: string, lines: seq<string>, start: nat): (b: Block)
    requires start < |lines|
    ensures |b.lines| >= 2 && b.lines[0] == opener
    ensures start <= b.resume <= |lines|
    ensures Weight(b.lines) <= Weight([opener]) + Weight(lines[start + 1..])
    ensures StaysOpen(b.lines[1..], 1)
    ensures Closed(b.lines[1..]) ==> 1 + Balance(b.lines[1..]) == 0 && b.resume < |lines|
    ensures !Closed(b.lines[1..]) ==> b.lines[|b.lines| - 1] == "" && b.resume == (if start + 1 < |lines| then |lines| else start)
  {
    var t := ScanFrom(lines, start + 1, 1, 0, start);
    assert ([opener] + t.lines)[1..] == t.lines;
    WeightAppend([opener], t.lines);
    Block([opener] + t.lines, t.resume)
  }

  /** The collecting loop from line `k` on, with `open` and `closed` brace-line counts so far
      and `index` the caller's loop index before this iteration. */
  function ScanFrom(lines: seq<string>, k: nat, open: int, closed: int, index: nat): (b: Block)
    requires index <= k <= |lines|
    requires open > closed
    ensures |b.lines| >= 1
    ensures index <= b.resume <= |lines|
    ensures Weight(b.lines) <= Weight(lines[k..])
    ensures StaysOpen(b.lines, open - closed)
    ensures Closed(b.lines) ==> open - closed + Balance(b.lines) == 0 && b.resume < |lines|
    ensures !Closed(b.lines) ==> b.lines[|b.lines| - 1] == "" && b.resume == (if k < |lines| then |lines| else index)
    decreases |lines| - k
  {
    if k == |lines| then Block([""], index)
    else
      var line := lines[k];
      assert lines[k..] == [line] + lines[k + 1..];
      WeightAppend([line], lines[k + 1..]);
      if line == "" then ScanFrom(lines, k + 1, open, closed, k + 1)
      else if Last(line) == '{' then
        var t := ScanFrom(lines, k + 1, open + 1, closed, k + 1);
        OpenInFront(line, t.lines, open - closed);
        Block([line] + t.lines, t.resume)
      else
        var closed' := if Last(line) == '}' then closed + 1 else closed;
        assert Delta(line) == closed - closed';
        if open == closed' then
          assert Balance([line]) == Delta(line);
          Block([line], index)
        else
          var t := ScanFrom(lines, k + 1, open, closed', k + 1);
          OpenInFront(line, t.lines, open - closed);
          Block([line] + t.lines, t.resume)
  }

  /** Putting a line in front of a run shifts its depth by the line's own change. */
  lemma OpenInFront(line: string, rest: seq<string>, depth: int)
    requires depth + Delta(line) > 0 && StaysOpen(rest, depth + Delta(line))
    ensures Balance([line] + rest) == Delta(line) + Balance(rest)
    ensures StaysOpen([line] + rest, depth)
  {
    assert ([line] + rest)[1..] == rest;
    forall p | 1 <= p < |[line] + rest|
      ensures depth + Balance(([line] + rest)[..p]) > 0
    {
      assert ([line] + rest)[..p] == [line] + rest[..p - 1];
      assert ([line] + rest[..p - 1])[1..] == rest[..p - 1];
      assert rest[..0] == [];
    }
  }
}

/**
 * The NVLink topology collector's parsers and statistics (internal/nvlink/collector.go): the
 * connection-type normalisation, the `nvidia-smi topo -m` matrix, the list of GPU pairs with
 * their peer-to-peer capabilities, and the link counters of a node's topology.  The command
 * runs over SSH are left out; their output is the input here.
 */
module NvLink {
  import opened Wrappers
  import opened GoStrings

  const ConnNVLink := "NV"
  const ConnPIX := "PIX"
  const ConnPXB := "PXB"
  const ConnPHB := "PHB"
  const ConnSYS := "SYS"
  const ConnSelf := "X"
  const ConnNone := "-"

  /** The connection types a matrix entry can be normalised to. */
  predicate IsConnectionType(c: string) {
    c == ConnNVLink || c == ConnPIX || c == ConnPXB || c == ConnPHB || c == ConnSYS || c == ConnSelf || c == ConnNone
  }

  /** The type of an upper-cased, trimmed entry. */
  function ConnectionOf(c: string): (r: string)
    ensures IsConnectionType(r)
    ensures HasPrefix(c, "NV") ==> r == ConnNVLink
    ensures !HasPrefix(c, "NV") && IsConnectionType(c) ==> r == c
    ensures !HasPrefix(c, "NV") && !IsConnectionType(c) ==> r == ConnNone
  {
    if HasPrefix(c, "NV") then ConnNVLink
    else if c == "PIX" then ConnPIX
    else if c == "PXB" then ConnPXB
    else if c == "PHB" then ConnPHB
    else if c == "SYS" then ConnSYS
    else if c == "X" then ConnSelf
    else ConnNone
  }

  /** `normalizeConnection`: trimmed and upper-cased, then typed. */
  function NormalizeConnection(conn: string): (r: string)
    ensures IsConnectionType(r)
  {
    ConnectionOf(ToUpper(TrimSpace(conn)))
  }

  /** A type name is its own normal form, so normalising twice changes nothing. */
  lemma NormalizeIdempotent(conn: string)
    ensures NormalizeConnection(NormalizeConnection(conn)) == NormalizeConnection(conn)
  {
    var t := NormalizeConnection(conn);
    AlreadyNormal(t);
  }

  lemma AlreadyNormal(t: string)
    requires IsConnectionType(t)
    ensures NormalizeConnection(t) == t
  {
    TypesArePlain(t);
    PlainIsNormal(t);
  }

  /** Text without white space or lower-case letters. */
  predicate Plain(t: string) {
    t != [] && forall i :: 0 <= i < |t| ==> !IsSpace(t[i]) && !('a' <= t[i] <= 'z')
  }

  lemma TypesArePlain(t: string)
    requires IsConnectionType(t)
    ensures Plain(t)
  {
  }

  /** Plain text is its own trimmed, upper-cased form. */
  lemma PlainIsNormal(t: string)
    requires Plain(t)
    ensures ToUpper(TrimSpace(t)) == t
  {
    assert TrimLeftSpace(t) == t;
    assert TrimRightSpace(t) == t;
    assert forall i :: 0 <= i < |t| ==> UpperChar(t[i]) == t[i];
  }

  /** The row index of a line that starts with "GPU" and digits (the regular expression `^GPU(\d+)`). */
  function GpuRowIndex(line: string): Option<nat> {
    if HasPrefix(line, "GPU") && LeadingDigits(line[3..]) != [] then Some(DigitsValue(LeadingDigits(line[3..])))
    else None
  }

  /** The normalised connections of a row's fields, after the leading "GPUi" field. */
  function TopologyRow(fields: seq<string>, n: nat): (row: seq<string>)
    requires |fields| >= n + 1
    ensures |row| == n
  {
    seq(n, i requires 0 <= i < n => NormalizeConnection(fields[i + 1]))
  }

  /**
   * One line of the output: a GPU row with an index below the count and at least count + 1
   * fields replaces that row of the matrix; any other line is ignored.
   */
  function TopologyLine(matrix: seq<seq<string>>, line: string, n: nat): (m: seq<seq<string>>)
    requires Square(matrix, n)
    ensures Square(m, n)
  {
    match GpuRowIndex(line)
    case None => matrix
    case Some(idx) =>
      if idx >= n then matrix
      else
        var fields := Fields(line);
        if |fields| < n + 1 then matrix else matrix[idx := TopologyRow(fields, n)]
  }

  /** The matrix after the lines in order. */
  function Topology(matrix: seq<seq<string>>, lines: seq<string>, n: nat): (m: seq<seq<string>>)
    requires Square(matrix, n)
    ensures Square(m, n)
    decreases |lines|
  {
    if lines == [] then matrix else Topology(TopologyLine(matrix, lines[0], n), lines[1..], n)
  }

  /** n rows of n entries each, as `make` allocates them. */
  predicate Square(m: seq<seq<string>>, n: nat) {
    |m| == n && forall i :: 0 <= i < n ==> |m[i]| == n
  }

  function EmptyMatrix(n: nat): (m: seq<seq<string>>)
    ensures |m| == n && forall i :: 0 <= i < n ==> m[i] == seq(n, j => "")
  {
    seq(n, i => seq(n, j => ""))
  }

  /** `parseTopologyOutput`: an n-by-n matrix of empty entries, filled line by line. */
  method ParseTopologyOutput(output: string, n: nat) returns (matrix: seq<seq<string>>)
    ensures matrix == Topology(EmptyMatrix(n), Split(output, '\n'), n)
  {
    matrix := TopologyLines(EmptyMatrix(n), Split(output, '\n'), n);
  }

  /** The loop of `parseTopologyOutput` over the lines. */
  method TopologyLines(start: seq<seq<string>>, lines: seq<string>, n: nat) returns (matrix: seq<seq<string>>)
    requires Square(start, n)
    ensures matrix == Topology(start, lines, n)
  {
    matrix := start;
    var l := 0;
    while l < |lines|
      invariant l <= |lines| && Square(matrix, n)
      invariant Topology(matrix, lines[l..], n) == Topology(start, lines, n)
    {
      assert lines[l..][1..] == lines[l + 1..];
      matrix := ApplyTopologyLine(matrix, lines[l], n);
      l := l + 1;
    }
  }

  /** The body of the loop: a GPU row inside the matrix with enough fields is filled in. */
  method ApplyTopologyLine(matrix: seq<seq<string>>, line: string, n: nat) returns (m: seq<seq<string>>)
    requires Square(matrix, n)
    ensures m == TopologyLine(matrix, line, n)
  {
    m := matrix;
    var idx := GpuRowIndex(line);
    if idx.Some? && idx.value < n {
      var fields := Fields(line);
      if |fields| >= n + 1 {
        var row := NormalizedRow(matrix[idx.value], fields, n);
        m := matrix[idx.value := row];
      }
    }
  }

  /** The row of a GPU line, filled in place from the row it replaces. */
  method NormalizedRow(old_row: seq<string>, fields: seq<string>, n: nat) returns (row: seq<string>)
    requires |fields| >= n + 1 && |old_row| == n
    ensures row == TopologyRow(fields, n)
  {
    row := FillRow(old_row, fields, n, NormalizeConnection);
  }

  /**
   * The inner loop: entry i of the row is field i + 1 as the collector's `normalize` (that is,
   * `normalizeConnection`) maps it.
   */
  method FillRow(old_row: seq<string>, fields: seq<string>, n: nat, normalize: string -> string) returns (row: seq<string>)
    requires |fields| >= n + 1 && |old_row| == n
    ensures |row| == n && forall k :: 0 <= k < n ==> row[k] == normalize(fields[k + 1])
  {
    row := old_row;
    var i := 0;
    while i < n && i + 1 < |fields|
      invariant 0 <= i <= n && |row| == n
      invariant forall k :: 0 <= k < i ==> row[k] == normalize(fields[k + 1])
    {
      row := row[i := normalize(fields[i + 1])];
      i := i + 1;
    }
  }

  /** A line that is not a GPU row, names a GPU at or past the count, or is too short changes nothing. */
  lemma IgnoredLines(matrix: seq<seq<string>>, line: string, n: nat)
    requires Square(matrix, n)
    requires GpuRowIndex(line).None? || GpuRowIndex(line).value >= n || |Fields(line)| < n + 1
    ensures TopologyLine(matrix, line, n) == matrix
  {
  }

  /** Every row has n entries, each empty or a connection type. */
  predicate WellFormedMatrix(m: seq<seq<string>>, n: nat) {
    Square(m, n) && forall i, j :: 0 <= i < n && 0 <= j < n ==> m[i][j] == "" || IsConnectionType(m[i][j])
  }

  /**
   * The parsed matrix is n-by-n with entries that are empty or connection types, and a row no
   * accepted line names keeps its entries.
   */
  lemma {:induction false} TopologyShape(m: seq<seq<string>>, lines: seq<string>, n: nat, i: nat)
    requires WellFormedMatrix(m, n) && i < n
    requires forall k :: 0 <= k < |lines| ==> GpuRowIndex(lines[k]) != Some(i)
    ensures WellFormedMatrix(Topology(m, lines, n), n)
    ensures Topology(m, lines, n)[i] == m[i]
    decreases |lines|
  {
    if lines != [] {
      var next := TopologyLine(m, lines[0], n);
      assert WellFormedMatrix(next, n);
      assert next[i] == m[i];
      TopologyShape(next, lines[1..], n, i);
    }
  }

  /** `P2PCapability`. */
  datatype P2PCapability = P2PCapability(gpu1: int, gpu2: int, read: bool, write: bool, atomic: bool, connection: string)

  /** The capabilities of a pair: NVLink has all three; PIX and PXB read and write; others none. */
  function Capability(i: int, j: int, conn: string): (c: P2PCapability)
    ensures c.gpu1 == i && c.gpu2 == j && c.connection == conn
    ensures c.read <==> conn == ConnNVLink || conn == ConnPIX || conn == ConnPXB
    ensures c.write <==> c.read
    ensures c.atomic <==> conn == ConnNVLink
  {
    if conn == ConnNVLink then P2PCapability(i, j, true, true, true, conn)
    else if conn == ConnPIX || conn == ConnPXB then P2PCapability(i, j, true, true, false, conn)
    else P2PCapability(i, j, false, false, false, conn)
  }

  /** The entries of row i from column j on, for the columns inside the matrix. */
  function RowPairs(m: seq<seq<string>>, n: nat, i: nat, j: nat): seq<P2PCapability>
    decreases n - j
  {
    if j >= n then []
    else (if i < |m| && j < |m[i]| then [Capability(i, j, m[i][j])] else []) + RowPairs(m, n, i, j + 1)
  }

  /** The pairs of rows i and later, each row from the column after the diagonal. */
  function Pairs(m: seq<seq<string>>, n: nat, i: nat): seq<P2PCapability>
    decreases n - i
  {
    if i >= n then [] else RowPairs(m, n, i, i + 1) + Pairs(m, n, i + 1)
  }

  /** `parseP2PMatrix`: one capability per pair i < j whose entry exists, in row order. */
  method ParseP2PMatrix(m: seq<seq<string>>, n: nat) returns (caps: seq<P2PCapability>)
    ensures caps == Pairs(m, n, 0)
  {
    caps := [];
    var i := 0;
    while i < n
      invariant i <= n && caps + Pairs(m, n, i) == Pairs(m, n, 0)
    {
      ghost var before := caps;
      caps := RowLoop(m, n, i, caps);
      assert Pairs(m, n, i) == RowPairs(m, n, i, i + 1) + Pairs(m, n, i + 1);
      assert before + Pairs(m, n, i) == caps + Pairs(m, n, i + 1);
      i := i + 1;
    }
  }

  /** The inner loop of `parseP2PMatrix`: the columns after the diagonal of row i. */
  method RowLoop(m: seq<seq<string>>, n: nat, i: nat, start: seq<P2PCapability>) returns (caps: seq<P2PCapability>)
    requires i < n
    ensures caps == start + RowPairs(m, n, i, i + 1)
  {
    caps := start;
    var j := i + 1;
    while j < n
      invariant i + 1 <= j <= n
      invariant caps + RowPairs(m, n, i, j) == start + RowPairs(m, n, i, i + 1)
      decreases n - j
    {
      ghost var before := caps;
      ghost var here := if i < |m| && j < |m[i]| then [Capability(i, j, m[i][j])] else [];
      assert RowPairs(m, n, i, j) == here + RowPairs(m, n, i, j + 1);
      if !(i >= |m| || j >= |m[i]|) {
        var conn := m[i][j];
        caps := caps + [Capability(i, j, conn)];
      }
      assert caps == before + here;
      assert before + (here + RowPairs(m, n, i, j + 1)) == caps + RowPairs(m, n, i, j + 1);
      j := j + 1;
    }
  }

  /** Lexicographic order on (gpu1, gpu2). */
  predicate PairBefore(a: P2PCapability, b: P2PCapability) {
    a.gpu1 < b.gpu1 || (a.gpu1 == b.gpu1 && a.gpu2 < b.gpu2)
  }

  /** A full n-by-n matrix: every row has n entries. */
  predicate FullMatrix(m: seq<seq<string>>, n: nat) {
    |m| == n && forall i :: 0 <= i < n ==> |m[i]| == n
  }

  /** The pairs of row i from column j: columns j..n-1 in order, each with its entry. */
  lemma {:induction false} RowPairsFacts(m: seq<seq<string>>, n: nat, i: nat, j: nat)
    requires FullMatrix(m, n) && i < n
    ensures |RowPairs(m, n, i, j)| == if j >= n then 0 else n - j
    ensures forall k :: 0 <= k < |RowPairs(m, n, i, j)| ==> RowPairs(m, n, i, j)[k] == Capability(i, j + k, m[i][j + k])
    decreases n - j
  {
    if j < n {
      RowPairsFacts(m, n, i, j + 1);
      var rest := RowPairs(m, n, i, j + 1);
      var row := RowPairs(m, n, i, j);
      assert |m[i]| == n;
      assert row == [Capability(i, j, m[i][j])] + rest;
      forall k | 0 <= k < |row| ensures row[k] == Capability(i, j + k, m[i][j + k]) {
        if k > 0 {
          assert row[k] == rest[k - 1];
        }
      }
    }
  }

  /** Every pair of row i is a pair i == gpu1 < gpu2 < n with its own entry. */
  lemma RowPairsSound(m: seq<seq<string>>, n: nat, i: nat)
    requires FullMatrix(m, n) && i < n
    ensures forall c :: c in RowPairs(m, n, i, i + 1) ==>
      i == c.gpu1 < c.gpu2 < n && c == Capability(c.gpu1, c.gpu2, m[c.gpu1][c.gpu2])
  {
    RowPairsFacts(m, n, i, i + 1);
    var row := RowPairs(m, n, i, i + 1);
    forall c | c in row ensures i == c.gpu1 < c.gpu2 < n && c == Capability(c.gpu1, c.gpu2, m[c.gpu1][c.gpu2]) {
      var k :| 0 <= k < |row| && row[k] == c;
      assert c == Capability(i, i + 1 + k, m[i][i + 1 + k]);
    }
  }

  /** Every listed pair of a full matrix is a pair i <= gpu1 < gpu2 < n with its own entry. */
  lemma {:induction false} PairsSound(m: seq<seq<string>>, n: nat, i: nat)
    requires FullMatrix(m, n)
    ensures forall c :: c in Pairs(m, n, i) ==>
      i <= c.gpu1 < c.gpu2 < n && c == Capability(c.gpu1, c.gpu2, m[c.gpu1][c.gpu2])
    decreases n - i
  {
    if i < n {
      PairsSound(m, n, i + 1);
      RowPairsSound(m, n, i);
      var row, rest := RowPairs(m, n, i, i + 1), Pairs(m, n, i + 1);
      assert Pairs(m, n, i) == row + rest;
    }
  }

  /** Every pair a < b < n of a full matrix, from row i on, is listed with its entry. */
  lemma {:induction false} PairsComplete(m: seq<seq<string>>, n: nat, i: nat)
    requires FullMatrix(m, n)
    ensures forall a, b :: i <= a < b < n ==> Capability(a, b, m[a][b]) in Pairs(m, n, i)
    decreases n - i
  {
    if i < n {
      PairsComplete(m, n, i + 1);
      RowPairsFacts(m, n, i, i + 1);
      var row, rest := RowPairs(m, n, i, i + 1), Pairs(m, n, i + 1);
      assert Pairs(m, n, i) == row + rest;
      forall a, b | i <= a < b < n ensures Capability(a, b, m[a][b]) in row + rest {
        if a == i {
          assert row[b - i - 1] == Capability(a, b, m[a][b]);
        } else {
          assert Capability(a, b, m[a][b]) in rest;
        }
      }
    }
  }

  /** The pairs of a full matrix are listed in strictly increasing order, so none twice. */
  lemma {:induction false} PairsOrdered(m: seq<seq<string>>, n: nat, i: nat)
    requires FullMatrix(m, n)
    ensures forall x, y :: 0 <= x < y < |Pairs(m, n, i)| ==> PairBefore(Pairs(m, n, i)[x], Pairs(m, n, i)[y])
    decreases n - i
  {
    if i < n {
      PairsOrdered(m, n, i + 1);
      PairsSound(m, n, i + 1);
      RowOrdered(m, n, i, i + 1);
      var row, rest := RowPairs(m, n, i, i + 1), Pairs(m, n, i + 1);
      assert Pairs(m, n, i) == row + rest;
      OrderedConcat(row, rest, i);
    }
  }

  /** The pairs of one row all start at that row and are listed by increasing column. */
  lemma RowOrdered(m: seq<seq<string>>, n: nat, i: nat, j: nat)
    requires FullMatrix(m, n) && i < n && j == i + 1
    ensures forall c :: c in RowPairs(m, n, i, j) ==> c.gpu1 == i
    ensures forall x, y :: 0 <= x < y < |RowPairs(m, n, i, j)| ==>
      PairBefore(RowPairs(m, n, i, j)[x], RowPairs(m, n, i, j)[y])
  {
    RowPairsFacts(m, n, i, j);
    RowPairsSound(m, n, i);
  }

  /** Two ordered runs stay ordered when every pair of the first starts before every pair of the second. */
  lemma OrderedConcat(row: seq<P2PCapability>, rest: seq<P2PCapability>, i: int)
    requires forall c :: c in row ==> c.gpu1 == i
    requires forall c :: c in rest ==> c.gpu1 > i
    requires forall x, y :: 0 <= x < y < |row| ==> PairBefore(row[x], row[y])
    requires forall x, y :: 0 <= x < y < |rest| ==> PairBefore(rest[x], rest[y])
    ensures forall x, y :: 0 <= x < y < |row + rest| ==> PairBefore((row + rest)[x], (row + rest)[y])
  {
    var s := row + rest;
    forall x, y | 0 <= x < y < |s| ensures PairBefore(s[x], s[y]) {
      if y < |row| {
        assert s[x] == row[x] && s[y] == row[y];
      } else if x < |row| {
        assert s[x] == row[x] && s[y] == rest[y - |row|];
      } else {
        assert s[x] == rest[x - |row|] && s[y] == rest[y - |row|];
      }
    }
  }

  /** `LinkStatus`. */
  datatype LinkStatus = Active | Inactive | Disabled | Error | Unknown

  /** `NVLinkInfo`, without the floating-point bandwidth and throughput fields. */
  datatype LinkInfo = LinkInfo(sourceGpu: int, targetGpu: int, linkIndex: int, status: LinkStatus, version: int)

  function CountStatus(links: seq<LinkInfo>, s: LinkStatus): (k: nat)
    ensures k <= |links|
  {
    if links == [] then 0 else (if links[0].status == s then 1 else 0) + CountStatus(links[1..], s)
  }

  function CountNVLink(caps: seq<P2PCapability>): (k: nat)
    ensures k <= |caps|
  {
    if caps == [] then 0 else (if caps[0].connection == ConnNVLink then 1 else 0) + CountNVLink(caps[1..])
  }

  /** `NodeTopology`: the collected GPUs' links and pairs and the counters computed from them. */
  class NodeTopology {
    var nodeName: string
    var links: seq<LinkInfo>
    var p2pMatrix: seq<P2PCapability>
    var totalLinks: int
    var activeLinks: int
    var errorLinks: int

    constructor (nodeName: string, links: seq<LinkInfo>, p2pMatrix: seq<P2PCapability>)
      ensures this.nodeName == nodeName && this.links == links && this.p2pMatrix == p2pMatrix
      ensures totalLinks == 0 && activeLinks == 0 && errorLinks == 0
    {
      this.nodeName := nodeName;
      this.links := links;
      this.p2pMatrix := p2pMatrix;
      totalLinks := 0;
      activeLinks := 0;
      errorLinks := 0;
    }

    /**
     * `calculateLinkStats`: every link and every NVLink pair counts towards the total; active
     * links and NVLink pairs are active; links in error are errors.
     */
    method CalculateLinkStats()
      modifies this
      ensures totalLinks == |links| + CountNVLink(p2pMatrix)
      ensures activeLinks == CountStatus(links, Active) + CountNVLink(p2pMatrix)
      ensures errorLinks == CountStatus(links, Error)
      ensures 0 <= activeLinks <= totalLinks && errorLinks <= totalLinks - activeLinks
      ensures nodeName == old(nodeName) && links == old(links) && p2pMatrix == old(p2pMatrix)
    {
      var total, active, errors := 0, 0, 0;
      var i := 0;
      while i < |links|
        invariant i <= |links|
        invariant total == i
        invariant active + CountStatus(links[i..], Active) == CountStatus(links, Active)
        invariant errors + CountStatus(links[i..], Error) == CountStatus(links, Error)
      {
        assert links[i..][1..] == links[i + 1..];
        total := total + 1;
        match links[i].status {
          case Active => active := active + 1;
          case Error => errors := errors + 1;
          case _ =>
        }
        i := i + 1;
      }
      var k := 0;
      while k < |p2pMatrix|
        invariant k <= |p2pMatrix|
        invariant total + CountNVLink(p2pMatrix[k..]) == |links| + CountNVLink(p2pMatrix)
        invariant active + CountNVLink(p2pMatrix[k..]) == CountStatus(links, Active) + CountNVLink(p2pMatrix)
      {
        assert p2pMatrix[k..][1..] == p2pMatrix[k + 1..];
        if p2pMatrix[k].connection == ConnNVLink {
          total := total + 1;
          active := active + 1;
        }
        k := k + 1;
      }
      ActiveAndErrorsBounded(links);
      totalLinks := total;
      activeLinks := active;
      errorLinks := errors;
    }
  }

  /** Active and error links are disjoint, so together they are at most the links counted. */
  lemma {:induction false} ActiveAndErrorsBounded(links: seq<LinkInfo>)
    ensures CountStatus(links, Active) + CountStatus(links, Error) <= |links|
  {
    if links != [] {
      ActiveAndErrorsBounded(links[1..]);
    }
  }
}

/**
 How many tokens a micro-batch gets when micro-batches are balanced by workload: when a limit is kept for sure,
 when it cannot be kept, exactly when for rows of one length, and by how much it can be exceeded at most.
 */
module MicroBatchTokens {
  import opened Arithmetic
  import opened Partition

  /** calculate_workload for one sequence. */
  function Workload(seqlen: nat): int {
    24576 * seqlen + seqlen * seqlen
  }

  function Workloads(seqLens: seq<nat>): seq<int> {
    seq(|seqLens|, i requires 0 <= i < |seqLens| => Workload(seqLens[i]))
  }

  /** Micro-batches of all rows, none of them empty, with workloads within the largest of each other. */
  ghost predicate Split(seqLens: seq<nat>, parts: seq<seq<nat>>) {
    && seqLens != [] && parts != [] && ExactCover(parts, |seqLens|) && [] !in parts
    && SpreadAtMost(Loads(Workloads(seqLens), parts), Max(Workloads(seqLens)))
  }

  ghost predicate WithinLimit(seqLens: seq<nat>, parts: seq<seq<nat>>, limit: nat) {
    forall i | 0 <= i < |parts| :: Load(seqLens, parts[i]) <= limit
  }

  /** No row is longer than the limit. */
  predicate RowsFit(seqLens: seq<nat>, limit: nat) {
    forall i | 0 <= i < |seqLens| :: seqLens[i] <= limit
  }

  // ---------------------------------------------------------------- tokens and workload

  /** Every token is at least 24577 units of work. */
  lemma WorkOfRow(seqlen: nat)
    ensures Workload(seqlen) >= 24577 * seqlen
  {
    if seqlen > 0 {
      ProductMonotone(1, seqlen, seqlen);
    }
  }

  lemma {:induction false} WorkOfPart(seqLens: seq<nat>, part: seq<nat>)
    ensures 24577 * Load(seqLens, part) <= Load(Workloads(seqLens), part)
  {
    if part != [] {
      WorkOfPart(seqLens, part[1..]);
      if part[0] < |seqLens| {
        WorkOfRow(seqLens[part[0]]);
      }
    }
  }

  /** A single token is 24577 units, and two rows in one cost twice the product of their lengths more than apart. */
  lemma WorkOfLongerRow(a: nat, b: nat)
    ensures Workload(0) == 0 && Workload(1) == 24577
    ensures Workload(a + b) == Workload(a) + Workload(b) + 2 * a * b
  {
    Distributes(a + b, a, b);
    Distributes(a, a, b);
    Distributes(b, a, b);
    Associates(2, a, b);
  }

  /** In rows of at most the given length, a token is at most 24576 + longest units of work. */
  lemma WorkOfShortRow(seqlen: nat, longest: nat)
    requires seqlen <= longest
    ensures Workload(seqlen) <= (24576 + longest) * seqlen
    ensures (24576 + longest) * seqlen <= (24576 + longest) * longest
  {
    ProductMonotone(seqlen, longest, seqlen);
    Distributes(seqlen, 24576, longest);
    ProductMonotone(seqlen, longest, 24576 + longest);
  }

  lemma {:induction false} WorkOfAll(seqLens: seq<nat>, longest: nat)
    requires RowsFit(seqLens, longest)
    ensures Sum(Workloads(seqLens)) <= (24576 + longest) * Sum(seqLens)
  {
    if seqLens != [] {
      WorkOfAll(seqLens[1..], longest);
      WorkOfShortRow(seqLens[0], longest);
      assert Workloads(seqLens)[1..] == Workloads(seqLens[1..]);
      Distributes(24576 + longest, seqLens[0], Sum(seqLens[1..]));
    }
  }

  /** k times the work of any micro-batch is at most all work plus k - 1 times the largest row's. */
  lemma WorkAgainstTotal(seqLens: seq<nat>, parts: seq<seq<nat>>, i: nat)
    requires Split(seqLens, parts) && i < |parts|
    ensures var w := Workloads(seqLens); CloseToAverage(|parts|, Load(w, parts[i]), Sum(w), Max(w))
  {
    var w := Workloads(seqLens);
    LoadsOfCover(w, parts);
    PartAgainstTotal(Loads(w, parts), i, Max(w));
  }

  // ---------------------------------------------------------------- when the limit is kept

  /** Conditions on the rows, the limit and the number of micro-batches that make the limit hold. */
  ghost predicate Safe(seqLens: seq<nat>, limit: nat, k: nat)
    requires seqLens != []
  {
    || Sum(seqLens) <= limit
    || (k == |seqLens| && RowsFit(seqLens, limit))
    || LightEnough(k, Sum(Workloads(seqLens)), Max(Workloads(seqLens)), 24577 * (limit + 1))
  }

  /** A part of the given work would leave more than the total and k - 1 times the largest row. */
  predicate LightEnough(k: nat, total: int, largest: int, work: int) {
    total + (k - 1) * largest < k * work
  }

  lemma TotalCoversPart(seqLens: seq<nat>, parts: seq<seq<nat>>, i: nat)
    requires ExactCover(parts, |seqLens|) && i < |parts|
    ensures Load(seqLens, parts[i]) <= Sum(seqLens)
  {
    LoadsOfCover(seqLens, parts);
    forall j | 0 <= j < |parts|
      ensures Loads(seqLens, parts)[j] >= 0
    {
      NonNegativeLoad(seqLens, parts[j]);
    }
    SumAtLeastWithTop(Loads(seqLens, parts), i, 0);
  }

  /** As many non-empty parts as rows: every part is one row. */
  lemma OneRowEach(parts: seq<seq<nat>>, n: nat, i: nat)
    requires ExactCover(parts, n) && |parts| == n && [] !in parts && i < n
    ensures |parts[i]| == 1 && parts[i][0] < n
  {
    SizesOfCover(parts, n);
    forall j | 0 <= j < n
      ensures Loads(Ones(n), parts)[j] >= 1
    {
      SizeIsLoad(parts, n, j);
      assert parts[j] in parts;
    }
    SumAtLeastWithTop(Loads(Ones(n), parts), i, 1);
    SizeIsLoad(parts, n, i);
    CoverInRange(parts, n, i);
  }

  lemma LoadOfRow(lens: seq<int>, part: seq<nat>)
    requires |part| == 1 && part[0] < |lens|
    ensures Load(lens, part) == lens[part[0]]
  {
    assert part == [part[0]] && part[1..] == [];
    assert SumOf<nat>(LengthOf(lens), part[1..]) == 0;
  }

  /** Whenever the rows are safe, no micro-batch has more tokens than the limit. */
  lemma SafeRowsFit(seqLens: seq<nat>, parts: seq<seq<nat>>, limit: nat)
    requires Split(seqLens, parts) && Safe(seqLens, limit, |parts|)
    ensures WithinLimit(seqLens, parts, limit)
  {
    var k, w := |parts|, Workloads(seqLens);
    forall i | 0 <= i < k
      ensures Load(seqLens, parts[i]) <= limit
    {
      if Sum(seqLens) <= limit {
        TotalCoversPart(seqLens, parts, i);
      } else if k == |seqLens| && RowsFit(seqLens, limit) {
        OneRowEach(parts, k, i);
        LoadOfRow(seqLens, parts[i]);
      } else if Load(seqLens, parts[i]) > limit {
        WorkAgainstTotal(seqLens, parts, i);
        WorkOfPart(seqLens, parts[i]);
        ProductMonotone(24577 * (limit + 1), Load(w, parts[i]), k);
        assert false;
      }
    }
  }

  /** More tokens than all limits together do not fit, in whatever split. */
  lemma TooManyTokens(seqLens: seq<nat>, parts: seq<seq<nat>>, limit: nat)
    requires ExactCover(parts, |seqLens|) && WithinLimit(seqLens, parts, limit)
    ensures Sum(seqLens) <= |parts| * limit
  {
    LoadsOfCover(seqLens, parts);
    SumAtMost(Loads(seqLens, parts), limit);
  }

  // ---------------------------------------------------------------- rows of one length

  ghost predicate AllAre(s: seq<int>, c: int) {
    forall i | 0 <= i < |s| :: s[i] == c
  }

  function Ones(n: nat): seq<int> {
    seq(n, _ => 1)
  }

  lemma {:induction false} LoadOfEqual(lens: seq<int>, c: int, part: seq<nat>)
    requires AllAre(lens, c) && InRange(part, |lens|)
    ensures Load(lens, part) == c * |part|
  {
    if part != [] {
      assert InRange(part[1..], |lens|) by {
        assert forall i | 0 <= i < |part[1..]| :: part[1..][i] == part[i + 1];
      }
      LoadOfEqual(lens, c, part[1..]);
      Distributes(c, 1, |part[1..]|);
    }
  }

  lemma SizeIsLoad(parts: seq<seq<nat>>, n: nat, i: nat)
    requires ExactCover(parts, n) && i < |parts|
    ensures Loads(Ones(n), parts)[i] == |parts[i]|
  {
    CoverInRange(parts, n, i);
    LoadOfEqual(Ones(n), 1, parts[i]);
  }

  lemma {:induction false} SumOfOnes(n: nat)
    ensures Sum(Ones(n)) == n
  {
    if n > 0 {
      SumOfOnes(n - 1);
      assert Ones(n)[1..] == Ones(n - 1);
    }
  }

  lemma SizesOfCover(parts: seq<seq<nat>>, n: nat)
    requires ExactCover(parts, n)
    ensures Sum(Loads(Ones(n), parts)) == n
  {
    LoadsOfCover(Ones(n), parts);
    SumOfOnes(n);
  }

  /** Loads c * m and c * n that differ by at most c belong to sizes that differ by at most one. */
  lemma AtMostOneApart(c: int, m: int, n: int)
    requires c > 0 && c * m - c * n <= c
    ensures m - n <= 1
  {
    if m - n >= 2 {
      ProductMonotone(2, m - n, c);
      Distributes(c, m, -n);
    }
  }

  lemma SizesOneApart(seqLens: seq<nat>, s: nat, parts: seq<seq<nat>>, i: nat, j: nat)
    requires Split(seqLens, parts) && AllAre(seqLens, s) && s > 0 && i < |parts| && j < |parts|
    ensures |parts[i]| - |parts[j]| <= 1
  {
    var w := Workloads(seqLens);
    WorkOfRow(s);
    CoverInRange(parts, |seqLens|, i);
    CoverInRange(parts, |seqLens|, j);
    LoadOfEqual(w, Workload(s), parts[i]);
    LoadOfEqual(w, Workload(s), parts[j]);
    assert Loads(w, parts)[i] - Loads(w, parts)[j] <= Workload(s);
    AtMostOneApart(Workload(s), |parts[i]|, |parts[j]|);
  }

  /** An average over k numbers of which the largest is at most one more than the others. */
  lemma RoundedUp(n: int, k: nat, m: int)
    requires k > 0 && n <= k * m && CloseToAverage(k, m, n, 1)
    ensures m == CeilDiv(n, k)
  {
    CeilDivIs(n, k, m);
    if CeilDiv(n, k) <= m - 1 {
      CeilDivIs(n, k, m - 1);
      Distributes(k, m, -1);
    }
  }

  /** Rows of one length: the largest micro-batch has exactly the average number of rows, rounded up. */
  lemma LargestSize(seqLens: seq<nat>, s: nat, parts: seq<seq<nat>>)
    requires Split(seqLens, parts) && AllAre(seqLens, s) && s > 0
    ensures Max(Loads(Ones(|seqLens|), parts)) == CeilDiv(|seqLens|, |parts|)
  {
    var n, k := |seqLens|, |parts|;
    var sizes := Loads(Ones(n), parts);
    forall i, j | 0 <= i < k && 0 <= j < k
      ensures sizes[i] - sizes[j] <= 1
    {
      SizeIsLoad(parts, n, i);
      SizeIsLoad(parts, n, j);
      SizesOneApart(seqLens, s, parts, i, j);
    }
    hide Split, AllAre, Ones, Loads, CloseToAverage, CeilDiv;
    SizesOfCover(parts, n);
    HeaviestPart(sizes, 1);
    SumAtMost(sizes, Max(sizes));
    RoundedUp(n, k, Max(sizes));
  }

  /** Rows of one length stay within the limit exactly when the rounded-up average number of rows does. */
  lemma EqualRowsExactlyWhen(seqLens: seq<nat>, s: nat, parts: seq<seq<nat>>, limit: nat)
    requires Split(seqLens, parts) && AllAre(seqLens, s)
    ensures WithinLimit(seqLens, parts, limit) <==> s * CeilDiv(|seqLens|, |parts|) <= limit
  {
    var n, k := |seqLens|, |parts|;
    var sizes := Loads(Ones(n), parts);
    forall i | 0 <= i < k
      ensures Load(seqLens, parts[i]) == s * sizes[i]
    {
      CoverInRange(parts, n, i);
      LoadOfEqual(seqLens, s, parts[i]);
      SizeIsLoad(parts, n, i);
    }
    if s > 0 {
      LargestSize(seqLens, s, parts);
      var top :| 0 <= top < k && sizes[top] == Max(sizes);
      forall i | 0 <= i < k
        ensures s * sizes[i] <= s * sizes[top]
      {
        ProductMonotone(sizes[i], sizes[top], s);
      }
    }
  }

  // ---------------------------------------------------------------- by how much

  /** k * 24577 times the tokens are at most (2k - 1) times the work of a row as long as the limit. */
  predicate AtMostTwoFullRows(k: nat, tokens: int, limit: nat) {
    k * (24577 * tokens) <= (2 * k - 1) * ((24576 + limit) * limit)
  }

  /** All work against k full rows. */
  lemma WorkWithinFullRows(seqLens: seq<nat>, limit: nat, k: nat)
    requires seqLens != [] && RowsFit(seqLens, limit) && Sum(seqLens) <= k * limit
    ensures Sum(Workloads(seqLens)) <= k * ((24576 + limit) * limit)
    ensures Max(Workloads(seqLens)) <= (24576 + limit) * limit
  {
    var w := Workloads(seqLens);
    WorkOfAll(seqLens, limit);
    ProductMonotone(Sum(seqLens), k * limit, 24576 + limit);
    Associates(24576 + limit, limit, k);
    var j :| 0 <= j < |w| && w[j] == Max(w);
    WorkOfShortRow(seqLens[j], limit);
  }

  lemma FullRowsArithmetic(k: nat, tokens: int, load: int, total: int, largest: int, full: int)
    requires k > 0 && 24577 * tokens <= load && CloseToAverage(k, load, total, largest)
    requires total <= k * full && largest <= full
    ensures k * (24577 * tokens) <= (2 * k - 1) * full
  {
    ProductMonotone(24577 * tokens, load, k);
    ProductMonotone(largest, full, k - 1);
    Distributes(full, k, k - 1);
  }

  /** Rows and averages within the limit: a micro-batch is at most 2 - 1/k times a full row's work. */
  lemma TokensAtMost(seqLens: seq<nat>, parts: seq<seq<nat>>, limit: nat, i: nat)
    requires Split(seqLens, parts) && i < |parts|
    requires RowsFit(seqLens, limit) && Sum(seqLens) <= |parts| * limit
    ensures AtMostTwoFullRows(|parts|, Load(seqLens, parts[i]), limit)
  {
    var w := Workloads(seqLens);
    WorkAgainstTotal(seqLens, parts, i);
    WorkOfPart(seqLens, parts[i]);
    WorkWithinFullRows(seqLens, limit, |parts|);
    FullRowsArithmetic(|parts|, Load(seqLens, parts[i]), Load(w, parts[i]), Sum(w), Max(w), (24576 + limit) * limit);
  }

  lemma Associates(a: int, b: int, k: int)
    ensures a * (k * b) == k * (a * b)
  {
  }
}

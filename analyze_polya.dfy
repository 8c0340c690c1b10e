/** src_cli/analyze_polya.py: the per-repetition theory checks of the Polya
    predictive. For every raw stream file and every threshold t it counts
    K_n(t) = #{x_i <= t}, forms the posterior mean (alpha g0 + K) / (alpha + n)
    and the Beta(a, b) credible interval for P((-inf, t]), and records whether
    the interval covers g0 = G0(t). The theoretical variance of the posterior
    mean across repetitions closes the report.

    A raw file is its rows (x_i, n); the Beta quantile function `ppf(q, a, b)`
    and the standard normal CDF Phi are parameters. numpy and pandas turn a
    division by zero into a non-finite value instead of raising, and scipy
    returns NaN for a quantile it cannot compute: such values are `Undefined`. */
module AnalyzePolya {
  import opened Numerics
  import opened DpPredictive
  import opened Dgps
  import opened Panel

  datatype RawRow = RawRow(x: real, n: int)
  datatype RawFile = RawFile(name: string, rows: seq<RawRow>)

  /** One output row: file, n, alpha, base, t, g0, K_n, post_mean, ci_lo, ci_hi, covered. */
  datatype CheckRow = CheckRow(file: string, n: int, alpha: real, base: string, t: real, g0: real,
                               kn: nat, postMean: Est, ciLo: Est, ciHi: Est, covered: bool)

  /** The reference law: UniformTruth(0, 1) for "uniform", NormalTruth() for
      every other name. */
  function BaseTruth(base: string): (tr: Truth)
    ensures ValidTruth(tr)
    ensures base == "uniform" ==> tr == DefaultUniform
    ensures base != "uniform" ==> tr == DefaultNormal
  {
    if base == "uniform" then DefaultUniform else DefaultNormal
  }

  /** The column x_i of a raw file. */
  function Xs(f: RawFile): (xs: seq<real>)
    ensures |xs| == |f.rows| && forall k :: 0 <= k < |xs| ==> xs[k] == f.rows[k].x
  {
    seq(|f.rows|, k requires 0 <= k < |f.rows| => f.rows[k].x)
  }

  /** post_mean = (alpha g0 + K) / (alpha + n): the mean a / (a + b) of the
      Beta posterior, non-finite when alpha + n is zero. */
  function PostMean(alpha: real, g0: real, n: int, K: nat): (pm: Est)
    ensures pm.Defined? <==> alpha + (n as real) != 0.0
    ensures pm.Defined? ==> pm.value == PosteriorParams(alpha, g0, n, K).0
                                        / (PosteriorParams(alpha, g0, n, K).0 + PosteriorParams(alpha, g0, n, K).1)
  {
    if alpha + (n as real) == 0.0 then Undefined
    else Defined((alpha * g0 + (K as real)) / (alpha + (n as real)))
  }

  /** When n is the number of atoms, post_mean is the Polya predictive CDF at
      t, hence in [0,1] for alpha > 0 and g0 in [0,1]. */
  lemma PostMeanIsPredictive(alpha: real, g0: real, xs: seq<real>, t: real)
    requires alpha + (|xs| as real) != 0.0
    ensures PostMean(alpha, g0, |xs|, CountLeq(xs, t)) == Defined(PolyaCdf(alpha, g0, xs, t))
    ensures alpha > 0.0 && 0.0 <= g0 <= 1.0 ==> 0.0 <= PostMean(alpha, g0, |xs|, CountLeq(xs, t)).value <= 1.0
  {
  }

  /** covered: both interval ends are numbers and lo <= g0 <= hi (a NaN end
      compares false). */
  predicate Covered(g0: real, lo: Est, hi: Est)
  {
    lo.Defined? && hi.Defined? && lo.value <= g0 && g0 <= hi.value
  }

  /** The row of file f at threshold t with g0 = G0(t). */
  function CheckRowAt(f: RawFile, alpha: real, base: string, t: real, g0: real, level: real,
                      ppf: (real, real, real) -> Est): CheckRow
    requires f.rows != []
  {
    var n := f.rows[0].n;
    var K := CountLeq(Xs(f), t);
    var ab := PosteriorParams(alpha, g0, n, K);
    var lo := ppf((1.0 - level) / 2.0, ab.0, ab.1);
    var hi := ppf(1.0 - (1.0 - level) / 2.0, ab.0, ab.1);
    CheckRow(f.name, n, alpha, base, t, g0, K, PostMean(alpha, g0, n, K), lo, hi, Covered(g0, lo, hi))
  }

  /** What a row holds: n from the first row of the file, K_n(t) in [0, len(xs)],
      post_mean, the two Beta quantiles at (1 - level) / 2 and 1 - (1 - level) / 2
      of the posterior shapes, and covered exactly when lo <= g0 <= hi. */
  lemma CheckRowMeaning(f: RawFile, alpha: real, base: string, t: real, g0: real, level: real,
                        ppf: (real, real, real) -> Est, row: CheckRow)
    requires f.rows != [] && row == CheckRowAt(f, alpha, base, t, g0, level, ppf)
    ensures row.file == f.name && row.n == f.rows[0].n && row.t == t && row.g0 == g0
    ensures row.kn == CountLeq(Xs(f), t) && row.kn <= |f.rows|
    ensures row.postMean == PostMean(alpha, g0, f.rows[0].n, row.kn)
    ensures row.ciLo == ppf((1.0 - level) / 2.0, PosteriorParams(alpha, g0, row.n, row.kn).0,
                            PosteriorParams(alpha, g0, row.n, row.kn).1)
    ensures row.ciHi == ppf(1.0 - (1.0 - level) / 2.0, PosteriorParams(alpha, g0, row.n, row.kn).0,
                            PosteriorParams(alpha, g0, row.n, row.kn).1)
    ensures row.covered <==> row.ciLo.Defined? && row.ciHi.Defined? && row.ciLo.value <= g0 <= row.ciHi.value
  {
  }

  /** A file written by one stream run: every row carries n = the number of rows. */
  predicate Consistent(f: RawFile)
  {
    forall k :: 0 <= k < |f.rows| ==> f.rows[k].n == |f.rows|
  }

  /** For such a file K_n(t) lies in [0, n], and with alpha > 0 and g0 in
      [0,1] post_mean is the predictive CDF, a number in [0,1], and both
      Beta shapes are non-negative. */
  lemma ConsistentRow(f: RawFile, alpha: real, base: string, t: real, g0: real, level: real,
                      ppf: (real, real, real) -> Est)
    requires f.rows != [] && Consistent(f) && alpha > 0.0 && 0.0 <= g0 <= 1.0
    ensures 0 <= CheckRowAt(f, alpha, base, t, g0, level, ppf).kn <= CheckRowAt(f, alpha, base, t, g0, level, ppf).n
    ensures CheckRowAt(f, alpha, base, t, g0, level, ppf).postMean == Defined(PolyaCdf(alpha, g0, Xs(f), t))
    ensures 0.0 <= CheckRowAt(f, alpha, base, t, g0, level, ppf).postMean.value <= 1.0
  {
    var row := CheckRowAt(f, alpha, base, t, g0, level, ppf);
    CheckRowMeaning(f, alpha, base, t, g0, level, ppf, row);
    assert row.n == |Xs(f)|;
    PostMeanIsPredictive(alpha, g0, Xs(f), t);
  }

  /** The rows of one file, one per threshold, in the order of ts. */
  function FileBlock(f: RawFile, alpha: real, base: string, ts: seq<real>, g0s: seq<real>, level: real,
                     ppf: (real, real, real) -> Est): (rows: seq<CheckRow>)
    requires f.rows != [] && |g0s| == |ts|
    ensures |rows| == |ts|
  {
    seq(|ts|, j requires 0 <= j < |ts| => CheckRowAt(f, alpha, base, ts[j], g0s[j], level, ppf))
  }

  /** Column j of a file's block is its row at threshold ts[j]. */
  lemma FileBlockEntry(f: RawFile, alpha: real, base: string, ts: seq<real>, g0s: seq<real>, level: real,
                       ppf: (real, real, real) -> Est, j: nat)
    requires f.rows != [] && |g0s| == |ts| && j < |ts|
    ensures FileBlock(f, alpha, base, ts, g0s, level, ppf)[j] == CheckRowAt(f, alpha, base, ts[j], g0s[j], level, ppf)
  {
  }

  /** The blocks of all files, in file order. */
  function FileBlocks(files: seq<RawFile>, alpha: real, base: string, ts: seq<real>, g0s: seq<real>, level: real,
                      ppf: (real, real, real) -> Est): (bs: seq<seq<CheckRow>>)
    requires (forall k :: 0 <= k < |files| ==> files[k].rows != []) && |g0s| == |ts|
    ensures |bs| == |files|
    ensures forall k :: 0 <= k < |files| ==> bs[k] == FileBlock(files[k], alpha, base, ts, g0s, level, ppf)
  {
    seq(|files|, k requires 0 <= k < |files| => FileBlock(files[k], alpha, base, ts, g0s, level, ppf))
  }

  /** The per-file loop of main: an error when there is no raw file or when a
      file has no rows (n is read from its first row); otherwise one block of
      |ts| rows per file, in file order, with g0 = G0(t) from the named base. */
  method Analyze(files: seq<RawFile>, alpha: real, base: string, ts: seq<real>, level: real,
                 Phi: real -> real, ppf: (real, real, real) -> Est)
    returns (r: Result<seq<CheckRow>>)
    ensures r.Err? <==> files == [] || exists k :: 0 <= k < |files| && files[k].rows == []
    ensures r.Ok? ==> |r.value| == |files| * |ts|
    ensures r.Ok? ==> r.value == Flatten(FileBlocks(files, alpha, base, ts, CdfTruthGrid(BaseTruth(base), ts, Phi), level, ppf))
  {
    if files == [] {
      return Err("no polya_dp raw files found");
    }
    var g0s := CdfTruthGrid(BaseTruth(base), ts, Phi);
    r := AnalyzeFiles(files, alpha, base, ts, g0s, level, ppf);
  }

  /** The loop over the files, with g0 = G0(t) already evaluated on ts. */
  method AnalyzeFiles(files: seq<RawFile>, alpha: real, base: string, ts: seq<real>, g0s: seq<real>, level: real,
                      ppf: (real, real, real) -> Est)
    returns (r: Result<seq<CheckRow>>)
    requires |g0s| == |ts|
    ensures r.Err? <==> exists k :: 0 <= k < |files| && files[k].rows == []
    ensures r.Ok? ==> |r.value| == |files| * |ts|
    ensures r.Ok? ==> r.value == Flatten(FileBlocks(files, alpha, base, ts, g0s, level, ppf))
  {
    var rows: seq<CheckRow> := [];
    var i := 0;
    while i < |files|
      invariant 0 <= i <= |files|
      invariant forall k :: 0 <= k < i ==> files[k].rows != []
      invariant rows == Flatten(FileBlocks(files[..i], alpha, base, ts, g0s, level, ppf))
    {
      var f := files[i];
      if f.rows == [] {
        return Err("single positional indexer is out-of-bounds");
      }
      var block := FileRows(f, alpha, base, ts, g0s, level, ppf);
      FileBlocksSnoc(files, i, alpha, base, ts, g0s, level, ppf);
      rows := rows + block;
      i := i + 1;
    }
    assert files[..i] == files;
    FileBlocksLength(files, alpha, base, ts, g0s, level, ppf);
    return Ok(rows);
  }

  /** One more file appends its block to the table. */
  lemma FileBlocksSnoc(files: seq<RawFile>, i: nat, alpha: real, base: string, ts: seq<real>, g0s: seq<real>, level: real,
                       ppf: (real, real, real) -> Est)
    requires i < |files| && |g0s| == |ts|
    requires forall k :: 0 <= k <= i ==> files[k].rows != []
    ensures Flatten(FileBlocks(files[..i + 1], alpha, base, ts, g0s, level, ppf))
            == Flatten(FileBlocks(files[..i], alpha, base, ts, g0s, level, ppf)) + FileBlock(files[i], alpha, base, ts, g0s, level, ppf)
  {
    var bs := FileBlocks(files[..i + 1], alpha, base, ts, g0s, level, ppf);
    assert bs[..i] == FileBlocks(files[..i], alpha, base, ts, g0s, level, ppf);
  }

  /** |files| blocks of |ts| rows each. */
  lemma FileBlocksLength(files: seq<RawFile>, alpha: real, base: string, ts: seq<real>, g0s: seq<real>, level: real,
                         ppf: (real, real, real) -> Est)
    requires (forall k :: 0 <= k < |files| ==> files[k].rows != []) && |g0s| == |ts|
    ensures |Flatten(FileBlocks(files, alpha, base, ts, g0s, level, ppf))| == |files| * |ts|
  {
    FlattenUniformLength(FileBlocks(files, alpha, base, ts, g0s, level, ppf), |ts|);
  }

  /** The inner loop over the thresholds of one file. */
  method FileRows(f: RawFile, alpha: real, base: string, ts: seq<real>, g0s: seq<real>, level: real,
                  ppf: (real, real, real) -> Est)
    returns (block: seq<CheckRow>)
    requires f.rows != [] && |g0s| == |ts|
    ensures block == FileBlock(f, alpha, base, ts, g0s, level, ppf)
  {
    block := [];
    var j := 0;
    while j < |ts|
      invariant 0 <= j <= |ts| && |block| == j
      invariant forall q :: 0 <= q < j ==> block[q] == CheckRowAt(f, alpha, base, ts[q], g0s[q], level, ppf)
    {
      block := block + [CheckRowAt(f, alpha, base, ts[j], g0s[j], level, ppf)];
      j := j + 1;
    }
    forall q | 0 <= q < |ts|
      ensures block[q] == FileBlock(f, alpha, base, ts, g0s, level, ppf)[q]
    {
      FileBlockEntry(f, alpha, base, ts, g0s, level, ppf, q);
    }
  }

  /** Row b |ts| + j of the table is the row of file b at threshold ts[j]. */
  lemma AnalyzeRowEntry(files: seq<RawFile>, alpha: real, base: string, ts: seq<real>, level: real,
                        Phi: real -> real, ppf: (real, real, real) -> Est, b: nat, j: nat)
    requires forall k :: 0 <= k < |files| ==> files[k].rows != []
    requires b < |files| && j < |ts|
    ensures b * |ts| + j < |Flatten(FileBlocks(files, alpha, base, ts, CdfTruthGrid(BaseTruth(base), ts, Phi), level, ppf))|
    ensures RowAt(Flatten(FileBlocks(files, alpha, base, ts, CdfTruthGrid(BaseTruth(base), ts, Phi), level, ppf)), |ts|, b, j)
            == CheckRowAt(files[b], alpha, base, ts[j], CdfTruth(BaseTruth(base), ts[j], Phi), level, ppf)
  {
    var g0s := CdfTruthGrid(BaseTruth(base), ts, Phi);
    var bs := FileBlocks(files, alpha, base, ts, g0s, level, ppf);
    FlattenUniformAt(bs, |ts|, b, j);
    FileBlockEntry(files[b], alpha, base, ts, g0s, level, ppf, j);
  }

  /** theory_var = n g0 (1 - g0) / (alpha + n)^2, non-finite when alpha + n is zero. */
  function TheoryVar(n: int, g0: real, alpha: real): (v: Est)
    ensures v.Defined? <==> alpha + (n as real) != 0.0
    ensures v.Defined? && n >= 0 && 0.0 <= g0 <= 1.0 ==> v.value >= 0.0
    ensures v.Defined? && (g0 == 0.0 || g0 == 1.0) ==> v.value == 0.0
    ensures v.Defined? && n >= 0 ==> v.value * 4.0 * Sq(alpha + (n as real)) <= n as real
  {
    var d := alpha + (n as real);
    if d == 0.0 then Undefined
    else
      var num := (n as real) * g0 * (1.0 - g0);
      TheoryVarFacts(n, g0, d);
      Defined(num / Sq(d))
  }

  lemma TheoryVarFacts(n: int, g0: real, d: real)
    requires d != 0.0
    ensures Sq(d) > 0.0
    ensures n >= 0 && 0.0 <= g0 <= 1.0 ==> (n as real) * g0 * (1.0 - g0) / Sq(d) >= 0.0
    ensures n >= 0 ==> ((n as real) * g0 * (1.0 - g0) / Sq(d)) * 4.0 * Sq(d) <= n as real
  {
    calc {
      Sq(d);
      d * d;
    > 0.0;
    }
    var q := g0 * (1.0 - g0);
    BernoulliVarianceBound(g0);
    if n >= 0 {
      var nr := n as real;
      assert nr * g0 * (1.0 - g0) == nr * q;
      if 0.0 <= g0 <= 1.0 {
        NonNegProduct(g0, 1.0 - g0);
        NonNegProduct(nr, q);
        DivNonNeg(nr * q, Sq(d));
      }
      ScaledVarianceBound(nr, q, Sq(d));
    }
  }

  /** g0 (1 - g0) <= 1/4. */
  lemma BernoulliVarianceBound(g0: real)
    ensures g0 * (1.0 - g0) * 4.0 <= 1.0
  {
    assert 1.0 - g0 * (1.0 - g0) * 4.0 == Sq(2.0 * g0 - 1.0);
  }

  lemma ScaledVarianceBound(nr: real, q: real, s: real)
    requires nr >= 0.0 && q * 4.0 <= 1.0 && s > 0.0
    ensures (nr * q / s) * 4.0 * s <= nr
  {
    var v := nr * q / s;
    assert v * s == nr * q;
    assert v * 4.0 * s == nr * (q * 4.0);
    NonNegProduct(nr, 1.0 - q * 4.0);
  }

  lemma DivNonNeg(a: real, b: real)
    requires a >= 0.0 && b > 0.0
    ensures a / b >= 0.0
  {
  }
}
